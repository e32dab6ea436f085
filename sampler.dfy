/** The node-failure sampler (`simulation` in src/osira/sim.py).

    For every failure size and every trial index the source draws substation
    ids with `random.randint(0, len(data))` until it holds `nodes` distinct ones,
    then sums the population of the table entries whose key it drew. Here the
    random source is the sequence `draws` of the generator's successive
    results, consumed in order across all trials; when the supplied draws run
    out before a trial is complete the model answers `None`, where the source
    would go on drawing. */
module Sampler {
  import opened Wrappers
  import opened Records
  import opened Arith

  // ---------------------------------------------------------------------------
  // Drawing one trial's ids
  // ---------------------------------------------------------------------------

  /** The first occurrences of the elements of `s`, in order of first
      occurrence. */
  function Dedup(s: seq<int>): seq<int>
  {
    if s == [] then []
    else
      var d := Dedup(s[..|s| - 1]);
      if s[|s| - 1] in d then d else d + [s[|s| - 1]]
  }

  /** The first occurrences hold every drawn value, and each of them once. */
  lemma {:induction false} DedupSpec(s: seq<int>)
    ensures NoDup(Dedup(s))
    ensures forall x :: x in Dedup(s) <==> x in s
  {
    if s != [] {
      var init := s[..|s| - 1];
      DedupSpec(init);
      assert s == init + [s[|s| - 1]];
    }
  }

  /** One more draw adds at most one fresh id. */
  lemma DedupStep(s: seq<int>)
    requires s != []
    ensures |Dedup(s[..|s| - 1])| <= |Dedup(s)| <= |Dedup(s[..|s| - 1])| + 1
  {
  }

  /** Drawing longer never loses an id already held. */
  lemma {:induction false} DedupPrefixLength(s: seq<int>, m: nat, n: nat)
    requires m <= n <= |s|
    ensures |Dedup(s[..m])| <= |Dedup(s[..n])|
    decreases n - m
  {
    if m < n {
      DedupPrefixLength(s, m, n - 1);
      assert s[..n][..n - 1] == s[..n - 1];
      DedupStep(s[..n]);
    }
  }

  /** The smallest position `r`, not before `c`, at which the draws from
      `start` up to `r` hold at least `nodes` distinct ids. */
  function FirstCut(draws: seq<int>, start: nat, c: nat, nodes: int): (r: Option<nat>)
    requires start <= c <= |draws|
    ensures r.Some? ==> c <= r.value <= |draws| && |Dedup(draws[start..r.value])| >= nodes
    ensures r.Some? ==> forall m :: c <= m < r.value ==> |Dedup(draws[start..m])| < nodes
    ensures r.None? ==> forall m :: c <= m <= |draws| ==> |Dedup(draws[start..m])| < nodes
    decreases |draws| - c
  {
    if |Dedup(draws[start..c])| >= nodes then Some(c)
    else if c == |draws| then None
    else FirstCut(draws, start, c + 1, nodes)
  }

  /** The ids of one trial and the position of the first draw it left
      unused: the first `nodes` distinct values drawn from position `start` on,
      in draw order. `None` when the draws run out first. */
  function Sample(draws: seq<int>, start: nat, nodes: int): (r: Option<(seq<int>, nat)>)
    requires start <= |draws|
    ensures r.Some? ==> start <= r.value.1 <= |draws|
  {
    match FirstCut(draws, start, start, nodes)
    case None => None
    case Some(c) => Some((Dedup(draws[start..c]), c))
  }

  /** A completed trial holds exactly `nodes` ids (none for a size that is not
      positive), no id twice, each one a value that was drawn for it, and it
      stops at the draw that completed it. */
  lemma SampleIds(draws: seq<int>, start: nat, nodes: int)
    requires start <= |draws| && Sample(draws, start, nodes).Some?
    ensures var (ids, next) := Sample(draws, start, nodes).value;
      && ids == Dedup(draws[start..next])
      && |ids| == (if nodes < 0 then 0 else nodes)
      && NoDup(ids)
      && (forall x :: x in ids ==> x in draws[start..next])
      && (forall m :: start <= m < next ==> |Dedup(draws[start..m])| < nodes)
  {
    var c := FirstCut(draws, start, start, nodes).value;
    DedupSpec(draws[start..c]);
    if nodes > 0 {
      assert draws[start..start] == [];
      assert c > start;
      assert draws[start..c][..c - start - 1] == draws[start..c - 1];
      DedupStep(draws[start..c]);
    } else {
      assert draws[start..start] == [];
    }
  }

  /** The draws run out before a trial is complete exactly when all the draws
      left hold fewer than `nodes` distinct values. */
  lemma SampleExhausted(draws: seq<int>, start: nat, nodes: int)
    requires start <= |draws|
    ensures Sample(draws, start, nodes).None? <==> |Dedup(draws[start..])| < nodes
  {
    var rest := draws[start..];
    match FirstCut(draws, start, start, nodes)
    case None =>
      assert draws[start..|draws|] == rest;
    case Some(c) =>
      assert draws[start..c] == rest[..c - start];
      assert rest[..|rest|] == rest;
      DedupPrefixLength(rest, c - start, |rest|);
  }

  /** Draws within one trial, shaped like the source's loop: draw, keep the
      value if it is new, until `nodes` ids are held. */
  method DrawSubstations(draws: seq<int>, start: nat, nodes: int) returns (r: Option<(seq<int>, nat)>)
    requires start <= |draws|
    ensures r == Sample(draws, start, nodes)
  {
    var ids: seq<int> := [];
    var pos := start;
    assert draws[start..pos] == [];
    while |ids| < nodes
      invariant start <= pos <= |draws|
      invariant ids == Dedup(draws[start..pos])
      invariant forall m :: start <= m < pos ==> |Dedup(draws[start..m])| < nodes
      decreases |draws| - pos
    {
      if pos == |draws| {
        return None;
      }
      var n := draws[pos];
      if n !in ids {
        ids := ids + [n];
      }
      pos := pos + 1;
      assert draws[start..pos][..pos - start - 1] == draws[start..pos - 1];
    }
    r := Some((ids, pos));
  }

  // ---------------------------------------------------------------------------
  // Counting distinct ids
  // ---------------------------------------------------------------------------

  /** The set of the integers from `lo` to `hi`. */
  function Interval(lo: int, hi: int): (r: set<int>)
    ensures forall x :: x in r <==> lo <= x <= hi
    ensures |r| == if hi < lo then 0 else hi - lo + 1
    decreases hi - lo
  {
    if hi < lo then {} else Interval(lo, hi - 1) + {hi}
  }

  function Elements(s: seq<int>): set<int>
  {
    set x | x in s
  }

  lemma {:induction false} NoDupElements(s: seq<int>)
    requires NoDup(s)
    ensures |Elements(s)| == |s|
  {
    if s != [] {
      var init := s[..|s| - 1];
      NoDupElements(init);
      assert Elements(s) == Elements(init) + {s[|s| - 1]};
      assert s[|s| - 1] !in init;
    } else {
      assert Elements(s) == {};
    }
  }

  lemma SubsetSize(a: set<int>, b: set<int>)
    requires a <= b
    ensures |a| <= |b|
  {
    assert b == a + (b - a);
  }

  /** Never more distinct ids than values in the range they come from. */
  lemma DistinctInRange(s: seq<int>, hi: int)
    requires NoDup(s) && forall x :: x in s ==> 0 <= x <= hi
    ensures |s| <= if hi < 0 then 0 else hi + 1
  {
    NoDupElements(s);
    SubsetSize(Elements(s), Interval(0, hi));
  }

  /** A list that holds every value of the range holds at least that many. */
  lemma CoversRange(s: seq<int>, hi: int)
    requires NoDup(s) && hi >= -1 && forall x :: 0 <= x <= hi ==> x in s
    ensures |s| >= hi + 1
  {
    NoDupElements(s);
    SubsetSize(Interval(0, hi), Elements(s));
  }

  /** With every draw in `[0, hi]` (as `randint(0, hi)` returns them), a trial
      asking for more than `hi + 1` distinct ids is never completed, however
      many draws are supplied: in the source the loop runs forever. */
  lemma NeverEnoughDistinct(draws: seq<int>, start: nat, nodes: int, hi: int)
    requires start <= |draws|
    requires forall i :: start <= i < |draws| ==> 0 <= draws[i] <= hi
    requires nodes > hi + 1 && nodes > 0
    ensures Sample(draws, start, nodes).None?
  {
    var d := Dedup(draws[start..]);
    DedupSpec(draws[start..]);
    forall x | x in d ensures 0 <= x <= hi {
      var k :| 0 <= k < |draws[start..]| && draws[start..][k] == x;
      assert draws[start + k] == x;
    }
    DistinctInRange(d, hi);
    SampleExhausted(draws, start, nodes);
  }

  /** Once every id of `[0, hi]` has been drawn, any trial of at most `hi + 1`
      ids is complete. */
  lemma EveryIdDrawn(draws: seq<int>, start: nat, nodes: int, hi: int)
    requires start <= |draws| && hi >= -1
    requires forall x :: 0 <= x <= hi ==> x in draws[start..]
    requires nodes <= hi + 1
    ensures Sample(draws, start, nodes).Some?
  {
    DedupSpec(draws[start..]);
    CoversRange(Dedup(draws[start..]), hi);
    SampleExhausted(draws, start, nodes);
  }

  // ---------------------------------------------------------------------------
  // Population of one trial
  // ---------------------------------------------------------------------------

  /** The population summed in the source's loop over the table: every entry
      whose key is one of `ids` adds its population. */
  function PopulationOf(data: seq<Substation>, ids: seq<int>): int
  {
    if data == [] then 0
    else
      var e := data[|data| - 1];
      PopulationOf(data[..|data| - 1], ids) + (if e.id in ids then e.population else 0)
  }

  /** The population the table records for key `x`, or 0 when `x` is no key. */
  function Lookup(data: seq<Substation>, x: int): int
  {
    if data == [] then 0
    else if data[|data| - 1].id == x then data[|data| - 1].population
    else Lookup(data[..|data| - 1], x)
  }

  /** Summing ids one by one: each failed id adds what the table records for it. */
  function SumOver(data: seq<Substation>, ids: seq<int>): int
  {
    if ids == [] then 0 else SumOver(data, ids[..|ids| - 1]) + Lookup(data, ids[|ids| - 1])
  }

  /** An id that is no key of the table adds nothing to the population. */
  lemma {:induction false} NonKeyAddsNothing(data: seq<Substation>, ids: seq<int>, x: int)
    requires forall i :: 0 <= i < |data| ==> data[i].id != x
    ensures PopulationOf(data, ids + [x]) == PopulationOf(data, ids)
  {
    if data != [] {
      NonKeyAddsNothing(data[..|data| - 1], ids, x);
    }
  }

  lemma {:induction false} PopulationSplit(data: seq<Substation>, ids: seq<int>, x: int)
    requires x !in ids
    ensures PopulationOf(data, ids + [x]) == PopulationOf(data, ids) + PopulationOf(data, [x])
  {
    if data != [] {
      PopulationSplit(data[..|data| - 1], ids, x);
    }
  }

  lemma {:induction false} PopulationSingle(data: seq<Substation>, x: int)
    requires DistinctKeys(data)
    ensures PopulationOf(data, [x]) == Lookup(data, x)
  {
    if data != [] {
      var init := data[..|data| - 1];
      PopulationSingle(init, x);
      if data[|data| - 1].id == x {
        assert PopulationOf(init, [] + [x]) == PopulationOf(init, []) by {
          NonKeyAddsNothing(init, [], x);
        }
        assert [] + [x] == [x];
        ZeroPopulation(init);
      }
    }
  }

  lemma {:induction false} ZeroPopulation(data: seq<Substation>)
    ensures PopulationOf(data, []) == 0
  {
    if data != [] {
      ZeroPopulation(data[..|data| - 1]);
    }
  }

  /** The trial's population is the sum, over its distinct failed ids, of the
      population the table records for each (nothing for an id that is no key). */
  lemma {:induction false} PopulationByIds(data: seq<Substation>, ids: seq<int>)
    requires DistinctKeys(data) && NoDup(ids)
    ensures PopulationOf(data, ids) == SumOver(data, ids)
  {
    if ids == [] {
      ZeroPopulation(data);
    } else {
      var init := ids[..|ids| - 1];
      var x := ids[|ids| - 1];
      assert ids == init + [x];
      assert NoDup(init);
      PopulationByIds(data, init);
      PopulationSplit(data, init, x);
      PopulationSingle(data, x);
    }
  }

  /** The source's accumulator loop over the table's entries. */
  method Population(data: seq<Substation>, ids: seq<int>) returns (total: int)
    ensures total == PopulationOf(data, ids)
  {
    total := 0;
    for i := 0 to |data|
      invariant total == PopulationOf(data[..i], ids)
    {
      assert data[..i + 1][..i] == data[..i];
      if data[i].id in ids {
        total := total + data[i].population;
      }
    }
    assert data[..|data|] == data;
  }

  // ---------------------------------------------------------------------------
  // All trials
  // ---------------------------------------------------------------------------

  /** The failure size and trial index of one record, in output order. */
  datatype Slot = Slot(nodes: int, iteration: nat)

  /** The number of trials `range(0, iterations)` runs. */
  function Trials(iterations: int): nat
  {
    if iterations < 0 then 0 else iterations
  }

  function Row(nodes: int, count: nat): (r: seq<Slot>)
    ensures |r| == count && forall j :: 0 <= j < count ==> r[j] == Slot(nodes, j)
  {
    seq(count, j requires 0 <= j < count => Slot(nodes, j))
  }

  /** The trials the two nested loops run, in their order. */
  function Schedule(sizes: seq<int>, iterations: int): seq<Slot>
  {
    if sizes == [] then []
    else Schedule(sizes[..|sizes| - 1], iterations) + Row(sizes[|sizes| - 1], Trials(iterations))
  }

  lemma {:induction false} ScheduleLength(sizes: seq<int>, iterations: int)
    ensures |Schedule(sizes, iterations)| == |sizes| * Trials(iterations)
  {
    if sizes != [] {
      var init := sizes[..|sizes| - 1];
      var n := Trials(iterations);
      ScheduleLength(init, iterations);
      assert |Row(sizes[|sizes| - 1], n)| == n;
      assert |sizes| * n == |init| * n + n;
    }
  }

  lemma {:induction false} SchedulePrefix(sizes: seq<int>, iterations: int, m: nat)
    requires m <= |sizes|
    ensures Schedule(sizes[..m], iterations) <= Schedule(sizes, iterations)
    decreases |sizes| - m
  {
    if m < |sizes| {
      var k := |sizes| - 1;
      assert sizes[..k][..m] == sizes[..m];
      SchedulePrefix(sizes[..k], iterations, m);
    } else {
      assert sizes[..m] == sizes;
    }
  }

  /** `len(num_substations) * iterations` trials, grouped by failure size in the
      order the sizes are given, with trial indices 0 .. iterations - 1 inside
      each group. */
  lemma ScheduleAt(sizes: seq<int>, iterations: int, i: nat, j: nat)
    requires i < |sizes| && j < Trials(iterations)
    ensures |Schedule(sizes, iterations)| == |sizes| * Trials(iterations)
    ensures i * Trials(iterations) + j < |Schedule(sizes, iterations)|
    ensures Schedule(sizes, iterations)[i * Trials(iterations) + j] == Slot(sizes[i], j)
  {
    var n := Trials(iterations);
    var pre := sizes[..i + 1];
    ScheduleLength(sizes, iterations);
    ScheduleLength(sizes[..i], iterations);
    SchedulePrefix(sizes, iterations, i + 1);
    assert pre[..|pre| - 1] == sizes[..i] && pre[|pre| - 1] == sizes[i];
    var head := Schedule(sizes[..i], iterations);
    var row := Row(sizes[i], n);
    assert Schedule(pre, iterations) == head + row;
    var k := |head|;
    ConcatAt(head, row, k, j);
    assert k == i * n;
    MulMonotone(i + 1, |sizes|, n);
    assert (i + 1) * n == i * n + n;
  }

  /** The ids of every trial in `slots`, each drawn on from where the previous
      trial stopped, and the position after the last draw used. */
  function Samples(draws: seq<int>, slots: seq<Slot>): (r: Option<(seq<seq<int>>, nat)>)
    ensures r.Some? ==> |r.value.0| == |slots| && r.value.1 <= |draws|
  {
    if slots == [] then Some(([], 0))
    else
      match Samples(draws, slots[..|slots| - 1])
      case None => None
      case Some((ss, p)) =>
        match Sample(draws, p, slots[|slots| - 1].nodes)
        case None => None
        case Some((ids, q)) => Some((ss + [ids], q))
  }

  /** Running fewer trials succeeds whenever running more does, with the same
      ids for the trials they share. */
  lemma {:induction false} SamplesPrefix(draws: seq<int>, a: seq<Slot>, b: seq<Slot>)
    requires a <= b && Samples(draws, b).Some?
    ensures Samples(draws, a).Some? && Samples(draws, a).value.0 <= Samples(draws, b).value.0
    decreases |b|
  {
    if |a| < |b| {
      var b' := b[..|b| - 1];
      assert a <= b';
      SamplesPrefix(draws, a, b');
    } else {
      assert a == b;
    }
  }

  /** Every trial holds exactly its failure size's number of ids (none for a
      size that is not positive), and none of them twice. */
  lemma {:induction false} SamplesWellFormed(draws: seq<int>, slots: seq<Slot>, t: nat)
    requires Samples(draws, slots).Some? && t < |slots|
    ensures var ids := Samples(draws, slots).value.0[t];
      |ids| == (if slots[t].nodes < 0 then 0 else slots[t].nodes) && NoDup(ids)
  {
    var init := slots[..|slots| - 1];
    var (ss, p) := Samples(draws, init).value;
    if t < |init| {
      SamplesWellFormed(draws, init, t);
    } else {
      SampleIds(draws, p, slots[t].nodes);
    }
  }

  /** With every draw in `[0, hi]` (as `randint(0, hi)` returns them), every
      failed id lies in `[0, hi]`. */
  lemma {:induction false} SamplesInRange(draws: seq<int>, slots: seq<Slot>, hi: int, t: nat)
    requires forall i :: 0 <= i < |draws| ==> 0 <= draws[i] <= hi
    requires Samples(draws, slots).Some? && t < |slots|
    ensures forall x :: x in Samples(draws, slots).value.0[t] ==> 0 <= x <= hi
  {
    var init := slots[..|slots| - 1];
    var (ss, p) := Samples(draws, init).value;
    if t < |init| {
      SamplesInRange(draws, init, hi, t);
    } else {
      SampleIds(draws, p, slots[t].nodes);
      var (ids, q) := Sample(draws, p, slots[t].nodes).value;
      forall x | x in ids ensures 0 <= x <= hi {
        var k :| 0 <= k < |draws[p..q]| && draws[p..q][k] == x;
        assert draws[p + k] == x;
      }
    }
  }

  /** The record the source appends for a trial. */
  predicate Fits(record: Scenario, slot: Slot, ids: seq<int>, data: seq<Substation>)
  {
    && record.nodes == slot.nodes
    && record.iteration == slot.iteration
    && record.substationIds == ids
    && record.population == PopulationOf(data, ids)
  }

  /** `records` are the records of the trials `slots`, whose ids are `samples`. */
  predicate Built(records: seq<Scenario>, slots: seq<Slot>, samples: seq<seq<int>>, data: seq<Substation>)
  {
    && |records| == |slots| == |samples|
    && forall t :: 0 <= t < |records| ==> Fits(records[t], slots[t], samples[t], data)
  }

  /** One more completed trial extends the chain of samples by its ids. */
  lemma SamplesStep(draws: seq<int>, slots: seq<Slot>, samples: seq<seq<int>>, pos: nat, slot: Slot)
    requires Samples(draws, slots) == Some((samples, pos))
    ensures pos <= |draws|
    ensures var next := slots + [slot];
      match Sample(draws, pos, slot.nodes)
      case None => Samples(draws, next) == None
      case Some((ids, q)) => Samples(draws, next) == Some((samples + [ids], q))
  {
    var next := slots + [slot];
    assert next[..|next| - 1] == slots;
  }

  /** Trial `i` follows trials `0 .. i - 1`. */
  lemma RowSnoc(done: seq<Slot>, nodes: int, i: nat)
    ensures Row(nodes, i) + [Slot(nodes, i)] == Row(nodes, i + 1)
    ensures done + Row(nodes, i) + [Slot(nodes, i)] == done + Row(nodes, i + 1)
  {
    var row := Row(nodes, i);
    var next := Row(nodes, i + 1);
    assert row + [Slot(nodes, i)] == next;
    assert done + row + [Slot(nodes, i)] == done + (row + [Slot(nodes, i)]);
  }

  /** The trials run so far, `done + Row(nodes, i + 1)`, are a prefix of all the
      trials of the run. */
  lemma RowPrefix(done: seq<Slot>, nodes: int, i: nat, count: nat, plan: seq<Slot>)
    requires i < count && done + Row(nodes, count) <= plan
    ensures done + Row(nodes, i) + [Slot(nodes, i)] == done + Row(nodes, i + 1)
    ensures done + Row(nodes, i + 1) <= plan
  {
    RowSnoc(done, nodes, i);
    assert Row(nodes, i + 1) <= Row(nodes, count);
  }

  /** Records built for two runs of trials, one after the other. */
  lemma BuiltAppend(r1: seq<Scenario>, s1: seq<Slot>, x1: seq<seq<int>>,
                    r2: seq<Scenario>, s2: seq<Slot>, x2: seq<seq<int>>, data: seq<Substation>)
    requires Built(r1, s1, x1, data) && Built(r2, s2, x2, data)
    ensures Built(r1 + r2, s1 + s2, x1 + x2, data)
  {
    forall t | 0 <= t < |r1 + r2|
      ensures Fits((r1 + r2)[t], (s1 + s2)[t], (x1 + x2)[t], data)
    {
      if t >= |r1| {
        assert Fits(r2[t - |r1|], s2[t - |r1|], x2[t - |r1|], data);
      }
    }
  }

  /** Two lists without repeated records and without a record in common. */
  lemma DistinctAppend(a: seq<Scenario>, b: seq<Scenario>)
    requires Distinct(a) && Distinct(b)
    requires forall i, j :: 0 <= i < |a| && 0 <= j < |b| ==> a[i] != b[j]
    ensures Distinct(a + b)
  {
    forall i, j | 0 <= i < j < |a + b| ensures (a + b)[i] != (a + b)[j] {
      if j < |a| {
      } else if i < |a| {
        assert (a + b)[j] == b[j - |a|];
      } else {
        assert (a + b)[i] == b[i - |a|] && (a + b)[j] == b[j - |a|];
      }
    }
  }

  /** A completed trial extends both the chain of samples and the records. */
  lemma TrialStep(data: seq<Substation>, draws: seq<int>, done: seq<Slot>, nodes: int, i: nat,
                  before: seq<seq<int>>, added: seq<seq<int>>, pos: nat,
                  records: seq<Scenario>, record: Scenario, ids: seq<int>, next: nat)
    requires Samples(draws, done + Row(nodes, i)) == Some((before + added, pos))
    requires Built(records, Row(nodes, i), added, data)
    requires Sample(draws, pos, nodes) == Some((ids, next))
    requires Fits(record, Slot(nodes, i), ids, data)
    ensures Samples(draws, done + Row(nodes, i + 1)) == Some((before + (added + [ids]), next))
    ensures Built(records + [record], Row(nodes, i + 1), added + [ids], data)
  {
    RowSnoc(done, nodes, i);
    SamplesStep(draws, done + Row(nodes, i), before + added, pos, Slot(nodes, i));
    assert (before + added) + [ids] == before + (added + [ids]);
    BuiltAppend(records, Row(nodes, i), added, [record], [Slot(nodes, i)], [ids], data);
  }

  /** A trial that runs out of draws ends the run of `count` trials. */
  lemma TrialFails(draws: seq<int>, done: seq<Slot>, nodes: int, i: nat, count: nat,
                   samples: seq<seq<int>>, pos: nat)
    requires i < count
    requires Samples(draws, done + Row(nodes, i)) == Some((samples, pos))
    requires Sample(draws, pos, nodes) == None
    ensures Samples(draws, done + Row(nodes, count)) == None
  {
    SamplesStep(draws, done + Row(nodes, i), samples, pos, Slot(nodes, i));
    RowPrefix(done, nodes, i, count, done + Row(nodes, count));
    if Samples(draws, done + Row(nodes, count)).Some? {
      SamplesPrefix(draws, done + Row(nodes, i + 1), done + Row(nodes, count));
    }
  }

  /** One trial: draw the failed substations from `start` on, add up the
      population they serve and record the result as a new scenario. */
  method Trial(data: seq<Substation>, draws: seq<int>, start: nat, nodes: int, iteration: nat)
    returns (r: Option<(Scenario, nat)>)
    requires start <= |draws|
    ensures r.None? <==> Sample(draws, start, nodes).None?
    ensures r.Some? ==>
      && Sample(draws, start, nodes) == Some((r.value.0.substationIds, r.value.1))
      && Fits(r.value.0, Slot(nodes, iteration), r.value.0.substationIds, data)
      && fresh(r.value.0)
  {
    var drawn := DrawSubstations(draws, start, nodes);
    if drawn.None? {
      return None;
    }
    var ids := drawn.value.0;
    var population := Population(data, ids);
    var record := new Scenario(nodes, iteration, population, ids);
    r := Some((record, drawn.value.1));
  }

  /** A record not yet in a list without repeats extends it without repeats. */
  lemma DistinctSnoc(records: seq<Scenario>, record: Scenario)
    requires Distinct(records) && record !in records
    ensures Distinct(records + [record])
  {
  }

  /** The inner loop of the sampler: `count` trials of failure size `nodes`,
      following the trials `done`, which consumed the draws before `pos0`. */
  method RunTrials(data: seq<Substation>, draws: seq<int>, nodes: int, count: nat, pos0: nat,
                   ghost done: seq<Slot>, ghost before: seq<seq<int>>)
    returns (r: Option<(seq<Scenario>, nat)>, ghost added: seq<seq<int>>)
    requires Samples(draws, done) == Some((before, pos0))
    ensures r.None? ==> Samples(draws, done + Row(nodes, count)) == None
    ensures r.Some? ==>
      && Samples(draws, done + Row(nodes, count)) == Some((before + added, r.value.1))
      && Built(r.value.0, Row(nodes, count), added, data)
      && Distinct(r.value.0)
      && (forall t :: 0 <= t < |r.value.0| ==> fresh(r.value.0[t]))
  {
    var records: seq<Scenario> := [];
    added := [];
    var pos := pos0;
    assert done + Row(nodes, 0) == done && before + added == before;
    for i := 0 to count
      invariant Samples(draws, done + Row(nodes, i)) == Some((before + added, pos))
      invariant Built(records, Row(nodes, i), added, data)
      invariant Distinct(records) && forall t :: 0 <= t < |records| ==> fresh(records[t])
    {
      var trial := Trial(data, draws, pos, nodes, i);
      if trial.None? {
        TrialFails(draws, done, nodes, i, count, before + added, pos);
        return None, added;
      }
      var record := trial.value.0;
      var ids := record.substationIds;
      TrialStep(data, draws, done, nodes, i, before, added, pos, records, record, ids, trial.value.1);
      assert record !in records;
      DistinctSnoc(records, record);
      records := records + [record];
      added := added + [ids];
      pos := trial.value.1;
    }
    r := Some((records, pos));
  }

  /** The sampler: one new record per trial, in the order of the two loops. */
  method Simulation(data: seq<Substation>, numSubstations: seq<int>, iterations: int, draws: seq<int>)
    returns (r: Option<seq<Scenario>>)
    ensures r.Some? <==> Samples(draws, Schedule(numSubstations, iterations)).Some?
    ensures r.Some? ==>
      var plan := Schedule(numSubstations, iterations);
      && Built(r.value, plan, Samples(draws, plan).value.0, data)
      && Distinct(r.value)
      && (forall t :: 0 <= t < |r.value| ==> fresh(r.value[t]))
  {
    ghost var plan := Schedule(numSubstations, iterations);
    var count := Trials(iterations);
    var records: seq<Scenario> := [];
    ghost var slots: seq<Slot> := [];
    ghost var samples: seq<seq<int>> := [];
    var pos: nat := 0;
    for idx := 0 to |numSubstations|
      invariant slots == Schedule(numSubstations[..idx], iterations)
      invariant Samples(draws, slots) == Some((samples, pos))
      invariant Built(records, slots, samples, data)
      invariant Distinct(records) && forall t :: 0 <= t < |records| ==> fresh(records[t])
    {
      var nodes := numSubstations[idx];
      assert numSubstations[..idx + 1][..idx] == numSubstations[..idx];
      assert Schedule(numSubstations[..idx + 1], iterations) == slots + Row(nodes, count);
      SchedulePrefix(numSubstations, iterations, idx + 1);
      var run, added := RunTrials(data, draws, nodes, count, pos, slots, samples);
      if run.None? {
        if Samples(draws, plan).Some? {
          SamplesPrefix(draws, slots + Row(nodes, count), plan);
        }
        return None;
      }
      var fresh_records := run.value.0;
      BuiltAppend(records, slots, samples, fresh_records, Row(nodes, count), added, data);
      DistinctAppend(records, fresh_records);
      records := records + fresh_records;
      slots := slots + Row(nodes, count);
      samples := samples + added;
      pos := run.value.1;
    }
    assert numSubstations[..|numSubstations|] == numSubstations;
    r := Some(records);
  }

  // ---------------------------------------------------------------------------
  // The inclusive upper bound of randint
  // ---------------------------------------------------------------------------

  /** Keys `0 .. len(data) - 1`, as every caller of the sampler builds the table. */
  predicate DenseKeys(data: seq<Substation>)
  {
    forall i :: 0 <= i < |data| ==> data[i].id == i
  }

  /** `randint(0, len(data))` may return `len(data)`, which is no key: with one
      substation, the draw 1 fails a substation that does not exist, and the
      trial counts no population at all. */
  lemma OffByOneWitness()
    ensures var data := [Substation(0, 500)];
      var draws := [1];
      && DenseKeys(data)
      && (forall i :: 0 <= i < |draws| ==> 0 <= draws[i] <= |data|)
      && Sample(draws, 0, 1) == Some(([1], 1))
      && PopulationOf(data, [1]) == 0
  {
    var draws := [1];
    assert draws[0..0] == [] && draws[0..1] == [1];
    assert [1][..0] == [];
    assert Dedup([1]) == [1];
    assert FirstCut(draws, 0, 1, 1) == Some(1);
    assert FirstCut(draws, 0, 0, 1) == Some(1);
    assert [Substation(0, 500)][..0] == [];
  }

  /** The evidently intended draws come from `[0, len(data) - 1]`. With a dense
      table, every failed id is then a key: each adds the population it serves,
      and a trial of more than `len(data)` ids can never be completed. */
  lemma IntendedDrawsAreKeys(data: seq<Substation>, draws: seq<int>, slots: seq<Slot>, t: nat)
    requires DenseKeys(data)
    requires forall i :: 0 <= i < |draws| ==> 0 <= draws[i] <= |data| - 1
    requires Samples(draws, slots).Some? && t < |slots|
    ensures forall x :: x in Samples(draws, slots).value.0[t] ==> 0 <= x < |data| && Lookup(data, x) == data[x].population
    ensures slots[t].nodes <= |data|
  {
    SamplesInRange(draws, slots, |data| - 1, t);
    SamplesWellFormed(draws, slots, t);
    var ids := Samples(draws, slots).value.0[t];
    forall x | x in ids ensures Lookup(data, x) == data[x].population {
      LookupDense(data, x);
    }
    DistinctInRange(ids, |data| - 1);
  }

  lemma {:induction false} LookupDense(data: seq<Substation>, x: int)
    requires DenseKeys(data) && 0 <= x < |data|
    ensures Lookup(data, x) == data[x].population
  {
    if x < |data| - 1 {
      LookupDense(data[..|data| - 1], x);
    }
  }
}

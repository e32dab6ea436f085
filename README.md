# osira simulation core in Dafny

osira estimates how many people lose power when several electricity
substations fail at once. Its core, `src/osira/sim.py`, does two things:

* The **sampler** (`simulation`) runs Monte-Carlo trials for every requested
  failure size `nodes`. Each trial draws substation ids until it holds `nodes`
  distinct ones. It then sums the population served by the table entries whose
  keys were drawn, and appends one scenario record `{nodes, iteration,
  population, substation_ids}`.
* The **ranker** has two parts:
  * `add_cp` sorts all records by descending population. For the records of
    one failure size it writes `rank` (1, 2, ...) and `cum_probability =
    round(rank / (len(results) + 1), 3)` into the records themselves.
  * `allocate_probabilities` calls `add_cp` once per failure size. For each
    target probability it picks the first ranked record whose cumulative
    probability is closest to the target.

The model is imperative, like the source:

* A scenario record is a class `Records.Scenario`. The sampler-written keys are
  `const` fields. `rank` and `cumProbability` are mutable `Option` fields,
  absent until `add_cp` writes them.
* Lists of records are sequences of references, so the updates `add_cp` makes
  in place are visible through every list that holds the record.
* Each loop of the source is a method with loop invariants. Each method is
  proved against a specification function:
  * `Sampler.Sample` and `Sampler.Samples` for drawing;
  * `Sampler.PopulationOf` for the population total;
  * `Ranker.Group` (`Sorting.SortDesc` followed by `Sorting.Filter`) for ranking;
  * `Ranker.Pick` and `Ranker.Selections` for selection.

  The properties the source relies on are lemmas about those functions.

The random generator is an input. `draws` is the sequence of successive
`randint` results, and trials consume it in order.

Modules:
* `Wrappers`: Option and Result.
* `Records`: the substation table and the scenario record.
* `Sorting`: the stable descending sort.
* `Sampler`: `simulation`.
* `Ranker`: `add_cp` and `allocate_probabilities`.
* `Arith`: facts about products and concatenation indices.

## Model

| member | source | states |
|---|---|---|
| Records.Scenario.constructor | src/osira/sim.py:59-64 | a new record holds the failure size, trial index, population and failed ids it was given, and has no rank and no cumulative probability yet |
| Records.DistinctPermutation | src/osira/sim.py:120-124 | any rearrangement of a list without repeated records (such as its sorted copy) still has no record twice |
| Sorting.FilterMembers | src/osira/sim.py:128-131 | every record kept by the failure-size test is a record of the list and passes the test |
| Sorting.SortDescPermutation | src/osira/sim.py:120-124 | `sorted(..., reverse=True, key=population)` returns exactly the input's records (same multiset, same length) |
| Sorting.SortDescNonIncreasing | src/osira/sim.py:120-124 | along the sorted list population never increases |
| Sorting.SortDescStable | src/osira/sim.py:120-124 | records of equal population keep their input order (Python's sort is stable, also with `reverse=True`) |
| Sorting.FilterSortDesc | src/osira/sim.py:120-131 | sorting all records and then keeping one failure size gives the same list as keeping that size and then sorting |
| Sampler.DedupSpec | src/osira/sim.py:46-51 | the ids kept from a run of draws are free of repeats, and an id is kept exactly when it was drawn |
| Sampler.FirstCut | src/osira/sim.py:46-51 | the trial's loop stops at the first draw position at which `nodes` distinct ids are held; when there is none in the supply, none exists |
| Sampler.SampleIds | src/osira/sim.py:44-51 | a completed trial holds exactly `nodes` ids (none when `nodes` is not positive), no id twice, each one drawn for it, in draw order, and it stops at the draw that completed it |
| Sampler.SampleExhausted | src/osira/sim.py:46-48 | a trial is left incomplete exactly when the remaining draws hold fewer than `nodes` distinct values |
| Sampler.DrawSubstations | src/osira/sim.py:44-51 | the source's draw-and-keep-if-new loop produces the trial's ids and the next unused draw position exactly as the specification `Sample` does |
| Sampler.NeverEnoughDistinct | src/osira/sim.py:46-48 | when every draw lies in `[0, hi]`, a trial asking for more than `hi + 1` distinct ids is never completed: the source's loop does not terminate |
| Sampler.EveryIdDrawn | src/osira/sim.py:46-51 | once every id of `[0, hi]` is among the draws, every trial of at most `hi + 1` ids completes |
| Sampler.NonKeyAddsNothing | src/osira/sim.py:53-57 | a failed id that is no key of the table adds nothing to the population |
| Sampler.PopulationByIds | src/osira/sim.py:53-57 | with distinct keys and distinct ids, the loop over the table equals the sum, over the failed ids, of the population recorded for each id |
| Sampler.Population | src/osira/sim.py:53-57 | the accumulator loop over the table's entries returns the population of the entries whose key was drawn |
| Sampler.ScheduleLength | src/osira/sim.py:40-42 | the two loops run `len(num_substations) * iterations` trials (none for a non-positive `iterations`) |
| Sampler.ScheduleAt | src/osira/sim.py:40-42 | trial `i * iterations + j` has failure size `num_substations[i]` and trial index `j` |
| Sampler.SamplesWellFormed | src/osira/sim.py:40-51 | in a complete run, every trial holds exactly its failure size's number of ids, none twice |
| Sampler.SamplesInRange | src/osira/sim.py:46-51 | in a complete run whose draws lie in `[0, hi]`, every id of every trial does too |
| Sampler.Trial | src/osira/sim.py:44-64 | one trial draws its ids as `Sample` specifies and creates a new record with those ids and their population, or reports that the draws ran out |
| Sampler.RunTrials | src/osira/sim.py:42-64 | the inner loop extends the chain of samples by one trial per index and builds one distinct new record per trial |
| Sampler.Simulation | src/osira/sim.py:12-66 | the whole run completes exactly when the draws suffice for every trial; it then returns distinct new records, one per trial in loop order, each with its size, index, ids and population |
| Sampler.OffByOneWitness | src/osira/sim.py:48 | with a one-entry table keyed 0, the allowed draw 1 completes a 1-node trial that fails no real substation and counts no population |
| Sampler.IntendedDrawsAreKeys | src/osira/sim.py:48-57 | with draws from `[0, len(data) - 1]` and keys `0 .. len(data) - 1`, every failed id is a key contributing its population, and no completed trial has more than `len(data)` ids |
| Ranker.ThousandthsNearest | src/osira/sim.py:134 | the stored value is the nearest thousandth to `rank / (len(results) + 1)` |
| Ranker.ThousandthsMonotone | src/osira/sim.py:126-138 | a later rank never gets a smaller cumulative probability |
| Ranker.ThousandthsBounds | src/osira/sim.py:134 | a rank from 1 to `len(results)` gets a cumulative probability between 0 and 1 |
| Ranker.FirstRankRoundsToZero | src/osira/sim.py:134 | from 2000 records on, rank 1 is stored as 0.0 |
| Ranker.RoundingExamples | tests/test_sim.py:114-139 | with 100 records, rank 1 is stored as 0.01 and rank 50 as 0.495, the values the tests expect |
| Ranker.CurveShape | src/osira/sim.py:126-138 | along a ranked list the cumulative probabilities never decrease and, while the list is no longer than the record count, lie in [0, 1] |
| Ranker.GroupSpec | src/osira/sim.py:118-140 | the ranked list holds exactly the records of that failure size, by non-increasing population, with records of equal population in input order |
| Ranker.GroupMembers | src/osira/sim.py:128-136 | every ranked record is one of the input records and has the requested failure size |
| Ranker.Stamp | src/osira/sim.py:133-134 | writing the next rank and its cumulative probability into a record extends the ranked list by one |
| Ranker.AddCp | src/osira/sim.py:99-140 | returns the ranked list `Group`; every record on it carries its position as rank and that rank's rounded cumulative probability; records of other sizes keep their rank and probability |
| Ranker.ClosestIndex | src/osira/sim.py:89-92 | `min` with the key `abs(cp - p)` returns a position whose value is closest to `p`, and the first such position |
| Ranker.Probabilities | src/osira/sim.py:91 | the values read for the selection are the records' cumulative probabilities, position by position |
| Ranker.ProbabilitiesOfRanked | src/osira/sim.py:91-134 | on a ranked list the values the selection reads are the curve of rounded cumulative probabilities of ranks 1, 2, ... |
| Ranker.PickSpec | src/osira/sim.py:87-94 | the record selected for a target belongs to that size's ranked list; none of that list is strictly closer to the target, and every record ranked before it is strictly farther |
| Ranker.SelectionsLength | src/osira/sim.py:83-96 | the output has one record per (failure size, target probability) pair |
| Ranker.SelectionsAt | src/osira/sim.py:83-96 | output position `i * len(probabilities) + j` holds the record selected for size `i` and target `j` |
| Ranker.SelectForSize | src/osira/sim.py:87-94 | the inner loop returns the record picked for each target, in order; it fails with an empty ranked list, exactly when some target is given |
| Ranker.AllocateProbabilities | src/osira/sim.py:69-96 | succeeds exactly when no target is given or every listed size has a record. On success it returns `Selections` and leaves every listed size ranked. On failure it names the first size with no record, earlier sizes already ranked. Records of unlisted sizes are untouched |

## Left out

- The generator behind `random.randint` and `random.seed(42)` is not modelled. The trials read `draws`, the generator's successive results, as an input. A finite supply stands in for the generator's endless one: when the draws run out before a trial is complete, `Sampler.Simulation` returns `None`, where the source would go on drawing. `Sampler.NeverEnoughDistinct` states when the source's loop never ends.
- Sampler.Simulation: it does not take the source's `probabilities` parameter, which the function never reads.
- Floating point is not modelled: `round(x, 3)`, `float(...)` and `abs` are computed on exact rationals.
  - A quotient exactly halfway between two thousandths is rounded up here. Python rounds to the nearest binary double and then half to even.
  - Target probabilities are `real`.
- Ranker.AddCp: requires that no record object occurs twice in `results`. The source would rank such a record twice and overwrite its rank with the later one; the model does not cover that aliasing. Every list `Sampler.Simulation` builds satisfies the requirement.
- Ranker.AddCp: the denominator is `len(results) + 1`, as the code writes it. It counts the records of every failure size, not only those of the size being ranked, so with several sizes the largest cumulative probability of a size stays well below 1. The model follows the code.
- `cascading_failures`, which the tests import, is not in `src/osira/sim.py` and is not part of this model.
- `scripts/`, `vis/` and `setup.py` (data preparation, plotting, CSV output, packaging) are not part of this model.
- The substation table, a dictionary in the source, is the sequence of its entries in iteration order. `Records.DistinctKeys` states the distinct keys where a lemma needs them.

## Findings

| source | as written | input that shows it | evidently intended | confidence | as-written member | corrected member |
|---|---|---|---|---|---|---|
| src/osira/sim.py:48 | `random.randint(0, len(data))` includes its upper bound, so `len(data)` can be drawn; with keys `0 .. len(data) - 1` that id fails no real substation and adds no population | a table with the single key 0 (population 500) and the draw 1: the 1-node trial holds id 1 and population 0 | draws from `0 .. len(data) - 1`, so that every failed id is a substation of the table | not executed | Sampler.OffByOneWitness | Sampler.IntendedDrawsAreKeys |

/** The two kinds of record the simulation core works on: the substation
    table it reads and the scenario records it creates and later updates. */
module Records {
  import opened Wrappers

  /** One entry of the substation table: its key and the population it serves.
      The table is a dictionary in the source; here it is the sequence of its
      entries in dictionary order, with keys that occur once each. */
  datatype Substation = Substation(id: int, population: int)

  /** True when no key of the substation table occurs twice (dictionary keys). */
  predicate DistinctKeys(data: seq<Substation>)
  {
    forall i, j :: 0 <= i < j < |data| ==> data[i].id != data[j].id
  }

  /** True when no element of `s` occurs twice. */
  predicate NoDup(s: seq<int>)
  {
    forall i, j :: 0 <= i < j < |s| ==> s[i] != s[j]
  }

  /** One Monte-Carlo trial, a dictionary in the source. The simulation writes
      the keys `nodes`, `iteration`, `population` and `substation_ids` once, when
      it creates the record; the ranker later adds the keys `rank` and
      `cum_probability` to the same record in place. */
  class Scenario {
    const nodes: int
    const iteration: nat
    const population: int
    const substationIds: seq<int>
    var rank: Option<nat>
    var cumProbability: Option<real>

    constructor (nodes: int, iteration: nat, population: int, substationIds: seq<int>)
      ensures this.nodes == nodes && this.iteration == iteration
      ensures this.population == population && this.substationIds == substationIds
      ensures rank == None && cumProbability == None
    {
      this.nodes := nodes;
      this.iteration := iteration;
      this.population := population;
      this.substationIds := substationIds;
      rank := None;
      cumProbability := None;
    }
  }

  /** True when no record object occurs twice in the list. */
  predicate Distinct(s: seq<Scenario>)
  {
    forall i, j :: 0 <= i < j < |s| ==> s[i] != s[j]
  }

  /** A list without repeated records has at most one copy of each record. */
  lemma {:induction false} DistinctMultiplicity(s: seq<Scenario>, o: Scenario)
    requires Distinct(s)
    ensures multiset(s)[o] <= 1
  {
    if s != [] {
      assert s == [s[0]] + s[1..];
      DistinctMultiplicity(s[1..], o);
      if o == s[0] {
        assert o !in s[1..];
      }
    }
  }

  /** Rearranging a list of distinct records keeps them distinct. */
  lemma DistinctPermutation(a: seq<Scenario>, b: seq<Scenario>)
    requires multiset(a) == multiset(b) && Distinct(a)
    ensures Distinct(b)
  {
    forall i, j | 0 <= i < j < |b| ensures b[i] != b[j] {
      if b[i] == b[j] {
        assert b == b[..j] + b[j..];
        assert b[i] in b[..j];
        assert b[j] in b[j..];
        assert multiset(b)[b[i]] == multiset(b[..j])[b[i]] + multiset(b[j..])[b[i]];
        DistinctMultiplicity(a, b[i]);
        assert false;
      }
    }
  }
}

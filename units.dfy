/**
 * The unit index the election reads from (Rust `Units`, whose source is not
 * part of this model). It is taken as an abstract value together with the
 * guarantees the surrounding protocol gives about it.
 */
module Index {
  import opened Wrappers

  /** Hashes are opaque but totally ordered. */
  type Hash = int
  type Round = nat
  type NodeIndex = nat

  /**
   * A unit as the extender sees it. `parents` is the unit's `NodeMap`: slot
   * `i` holds the hash of the parent created by node `i`, if there is one.
   */
  datatype Unit = Unit(round: Round, creator: NodeIndex, hash: Hash, parents: seq<Option<Hash>>)

  /**
   * The index: the committee size, the units by hash, the hashes of each
   * round in insertion order (`in_round`) and the highest round seen.
   */
  datatype Units = Units(size: nat, units: map<Hash, Unit>, byRound: map<Round, seq<Hash>>, highest: Round)

  /** `NodeMap::get`: the parent in slot `i`, if any. */
  function Slot(parents: seq<Option<Hash>>, i: NodeIndex): Option<Hash>
  {
    if i < |parents| then parents[i] else None
  }

  /** The number of occupied slots, i.e. the number of items `NodeMap::values` yields. */
  function PresentCount(parents: seq<Option<Hash>>): (n: nat)
    ensures n <= |parents|
    ensures n == 0 <==> forall i :: 0 <= i < |parents| ==> parents[i].None?
  {
    if parents == [] then 0
    else PresentCount(parents[..|parents| - 1]) + (if parents[|parents| - 1].Some? then 1 else 0)
  }

  /** The Byzantine quorum for a committee of `size` nodes: more than two thirds. */
  function Threshold(size: nat): (t: nat)
    ensures 1 <= t && 3 * (t - 1) <= 2 * size < 3 * t
  {
    size * 2 / 3 + 1
  }

  predicate Distinct(s: seq<Hash>)
  {
    forall i, j :: 0 <= i < j < |s| ==> s[i] != s[j]
  }

  predicate IsUnitOf(u: Units, v: Unit)
  {
    v.hash in u.units && u.units[v.hash] == v
  }

  /** Every present parent is a known unit of a round below `bound`. */
  ghost predicate ParentsBelow(u: Units, parents: seq<Option<Hash>>, bound: Round)
  {
    forall i :: 0 <= i < |parents| && parents[i].Some? ==>
      parents[i].value in u.units && u.units[parents[i].value].round < bound
  }

  ghost predicate HashesMatch(u: Units)
  {
    forall h :: h in u.units ==> u.units[h].hash == h
  }

  ghost predicate Shapes(u: Units)
  {
    forall h :: h in u.units ==> u.units[h].creator < u.size && |u.units[h].parents| == u.size
  }

  /** Causal completeness: the parents of a known unit are known, and lie in lower rounds. */
  ghost predicate Causal(u: Units)
  {
    forall h :: h in u.units ==> ParentsBelow(u, u.units[h].parents, u.units[h].round)
  }

  /** Every unit above round 0 has a quorum of parents. */
  ghost predicate Quorate(u: Units)
  {
    forall h :: h in u.units && u.units[h].round > 0 ==>
      PresentCount(u.units[h].parents) >= Threshold(u.size)
  }

  ghost predicate RoundList(u: Units, r: Round, hs: seq<Hash>)
  {
    hs != [] && Distinct(hs) && forall h :: h in hs ==> h in u.units && u.units[h].round == r
  }

  /** `in_round` lists exactly the units of each round, without repetition. */
  ghost predicate RoundsIndexed(u: Units)
  {
    (forall r :: r in u.byRound ==> RoundList(u, r, u.byRound[r])) &&
    (forall h :: h in u.units ==> u.units[h].round in u.byRound && h in u.byRound[u.units[h].round])
  }

  /** `highest_round` bounds every round, and units come in order: no round up to it is empty. */
  ghost predicate HighestKnown(u: Units)
  {
    (u.units == map[] ==> u.highest == 0 && u.byRound == map[]) &&
    (forall h :: h in u.units ==> u.units[h].round <= u.highest) &&
    (u.units != map[] ==> forall r: Round :: r <= u.highest ==> r in u.byRound)
  }

  ghost predicate WellFormed(u: Units)
  {
    HashesMatch(u) && Shapes(u) && Causal(u) && Quorate(u) && RoundsIndexed(u) && HighestKnown(u)
  }

  /** `u2` is `u` with more units added: every known unit is kept as it was. */
  ghost predicate Grows(u: Units, u2: Units)
  {
    WellFormed(u) && WellFormed(u2) && u2.size == u.size &&
    forall h :: h in u.units ==> h in u2.units && u2.units[h] == u.units[h]
  }

  /** A known unit above round 0 has one parent slot per node and a quorum of present parents. */
  lemma QuorumOf(u: Units, h: Hash)
    requires WellFormed(u) && h in u.units && u.units[h].round > 0
    ensures |u.units[h].parents| == u.size
    ensures PresentCount(u.units[h].parents) >= Threshold(u.size)
  {
    assert Quorate(u) && Shapes(u);
  }

  /** Every round from 1 to `highest` can be enumerated. */
  lemma RoundsPresent(u: Units, r: Round)
    requires WellFormed(u) && 0 < r <= u.highest
    ensures r in u.byRound && RoundList(u, r, u.byRound[r])
  {
  }
}

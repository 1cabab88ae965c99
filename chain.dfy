/**
 * Concrete indexes: a committee of one node that has produced one unit in
 * each of rounds 0 to `top`, each citing the one before. They are well
 * formed. With rounds 0 to 4 the election for round 0 elects the round-0
 * unit straight away, as in the election's `immediate_election` test; with
 * rounds 0 to 3 it is pending until the round-4 unit is added, as in
 * `easy_election`.
 */
module Chain {
  import opened Wrappers
  import opened Index
  import opened Voting
  import opened RoundElections
  import opened Scenarios

  /** The unit of round `r`: hash `r`, created by node 0, citing the unit of round `r - 1`. */
  function ChainUnit(r: Round): Unit
  {
    Unit(r, 0, r, if r == 0 then [None] else [Some(r - 1)])
  }

  function ChainIndex(top: Round): Units
  {
    Units(1, map h: Hash | 0 <= h <= top :: ChainUnit(h), map r: Round | r <= top :: [r], top)
  }

  /** What the lemmas below use of `ChainIndex(top)`. */
  ghost predicate IsChain(u: Units, top: Round)
  {
    u.size == 1 && u.highest == top &&
    (forall h :: h in u.units <==> 0 <= h <= top) &&
    (forall h :: h in u.units ==> u.units[h] == ChainUnit(h)) &&
    (forall r: Round :: r in u.byRound <==> r <= top) &&
    (forall r :: r in u.byRound ==> u.byRound[r] == [r])
  }

  lemma ChainIndexIsChain(top: Round)
    ensures IsChain(ChainIndex(top), top)
  {
  }

  lemma ChainQuorate(u: Units, top: Round)
    requires IsChain(u, top)
    ensures Quorate(u)
  {
    forall h | h in u.units && u.units[h].round > 0
      ensures PresentCount(u.units[h].parents) >= Threshold(u.size)
    {
      assert u.units[h].parents == [Some(h - 1)];
      assert [Some(h - 1)][..0] == [];
    }
  }

  lemma ChainIndexed(u: Units, top: Round)
    requires IsChain(u, top)
    ensures RoundsIndexed(u)
  {
    forall r | r in u.byRound
      ensures RoundList(u, r, u.byRound[r])
    {
      assert u.byRound[r] == [r];
      assert r in u.units;
    }
  }

  lemma ChainWellFormed(u: Units, top: Round)
    requires IsChain(u, top)
    ensures WellFormed(u)
  {
    ChainQuorate(u, top);
    ChainIndexed(u, top);
    assert 0 in u.units;
  }

  /** Well-formed indexes with units exist: the chain up to any round is one. */
  lemma ChainIndexWellFormed(top: Round)
    ensures WellFormed(ChainIndex(top))
    ensures ChainIndex(top).highest == top && top in ChainIndex(top).units
  {
    ChainIndexIsChain(top);
    ChainWellFormed(ChainIndex(top), top);
  }

  lemma ChainLayered(u: Units, top: Round)
    requires IsChain(u, top)
    ensures LayeredAbove(u, 0)
    ensures forall h :: h in u.units && u.units[h].round == 1 ==> Slot(u.units[h].parents, 0) == Some(0)
  {
    forall h | h in u.units && u.units[h].round >= 2
      ensures ParentsAt(u, u.units[h].parents, u.units[h].round - 1)
    {
      assert u.units[h].parents == [Some(h - 1)];
      assert h - 1 in u.units;
    }
  }

  /**
   * The whole next round cites the round-0 unit, the only candidate: the
   * election is pending while the chain ends below round 4, and elects it from
   * then on.
   */
  lemma ChainElectsFirstUnit(u: Units, top: Round)
    requires IsChain(u, top) && top >= 1
    ensures WellFormed(u) && 0 in u.byRound
    ensures First(u, 0) == 0 && Others(u, 0) == [] && CandidateList(u, 0) == [0]
    ensures LayeredAbove(u, 0) && CitedByAll(u, CandidateOf(u.units[0]))
    ensures Sustains(u, 0, [])
    ensures top < 4 ==> RunFrom(u, 0, []) == Undecided(0, [])
    ensures top >= 4 ==> RunFrom(u, 0, []) == Head(0)
  {
    ChainWellFormed(u, top);
    ChainLayered(u, top);
    assert u.byRound[0] == [0];
    assert SortDescending([0]) == Insert(0, []) == [0];
    assert First(u, 0) == 0 && Others(u, 0) == [];
    assert u.units[0].round == 0 && u.units[0].hash == 0 && u.units[0].creator == 0;
    assert CitedByAll(u, CandidateOf(u.units[First(u, 0)]));
    PopularFirstCandidate(u, 0);
  }

  /** `for_round(0, ..)` on this index returns `Elected` with the round-0 unit. */
  method ChainForRound(u: Units) returns (r: Result<ElectionResult, ()>)
    requires IsChain(u, 4)
    ensures r == Ok(Elected(0))
  {
    ChainElectsFirstUnit(u, 4);
    var s := CandidateList(u, 0);
    assert s[|s| - 1] == 0 && s[..|s| - 1] == [];
    r := ForRoundElects(0, u, 0);
  }

  /** The chain up to `top` grows into the chain up to `top2`. */
  lemma ChainGrows(u: Units, top: Round, u2: Units, top2: Round)
    requires IsChain(u, top) && IsChain(u2, top2) && top <= top2
    ensures Grows(u, u2)
  {
    ChainWellFormed(u, top);
    ChainWellFormed(u2, top2);
  }

  /**
   * `easy_election` on chains: pending on rounds 0 to 3, elected by the
   * round-4 unit.
   */
  method ChainEasyElection(u: Units, u2: Units) returns (first: ElectionResult, second: ElectionResult)
    requires IsChain(u, 3) && IsChain(u2, 4)
    ensures first.Pending? && second == Elected(0)
  {
    ChainElectsFirstUnit(u, 3);
    ChainElectsFirstUnit(u2, 4);
    ChainGrows(u, 3, u2, 4);
    assert u2.units[4].round == 4;
    first, second := EasyElection(u, u2, 0, 4);
  }

  // ---------------------------------------------------------------------
  // A forked chain: node 0 has two units in round 0, hashes 0 and 1, and the
  // units of rounds 1 to 4 (hashes 2 to 5) cite only the second.

  function ForkUnit(h: Hash): Unit
  {
    if h <= 1 then Unit(0, 0, h, [None])
    else Unit(h - 1, 0, h, [Some(h - 1)])
  }

  ghost predicate IsFork(u: Units)
  {
    u.size == 1 && u.highest == 4 &&
    (forall h :: h in u.units <==> 0 <= h <= 5) &&
    (forall h :: h in u.units ==> u.units[h] == ForkUnit(h)) &&
    (forall r: Round :: r in u.byRound <==> r <= 4) &&
    (forall r :: r in u.byRound ==> u.byRound[r] == ForkRound(r))
  }

  /** Round 0 lists both forked units, every later round its one unit. */
  function ForkRound(r: Round): seq<Hash>
  {
    if r == 0 then [0, 1] else [r + 1]
  }

  function ForkIndex(): Units
  {
    Units(1, map h: Hash | 0 <= h <= 5 :: ForkUnit(h),
          map r: Round | r <= 4 :: ForkRound(r), 4)
  }

  lemma ForkIndexIsFork()
    ensures IsFork(ForkIndex())
  {
  }

  lemma ForkQuorate(u: Units)
    requires IsFork(u)
    ensures Quorate(u)
  {
    forall h | h in u.units && u.units[h].round > 0
      ensures PresentCount(u.units[h].parents) >= Threshold(u.size)
    {
      assert u.units[h].parents == [Some(h - 1)];
      assert [Some(h - 1)][..0] == [];
    }
  }

  lemma ForkIndexed(u: Units)
    requires IsFork(u)
    ensures RoundsIndexed(u)
  {
    forall r | r in u.byRound
      ensures RoundList(u, r, u.byRound[r])
    {
      if r == 0 {
        assert 0 in u.units && 1 in u.units;
      } else {
        assert r + 1 in u.units;
      }
    }
    forall h | h in u.units
      ensures u.units[h].round in u.byRound && h in u.byRound[u.units[h].round]
    {
      if h <= 1 {
        assert u.byRound[0] == [0, 1];
      } else {
        assert u.byRound[h - 1] == [h];
      }
    }
  }

  lemma ForkWellFormed(u: Units)
    requires IsFork(u)
    ensures WellFormed(u)
  {
    ForkQuorate(u);
    ForkIndexed(u);
    assert 0 in u.units;
  }

  /** A well-formed index may hold a fork: two round-0 units of node 0. */
  lemma ForkIndexWellFormed()
    ensures WellFormed(ForkIndex())
    ensures 0 in ForkIndex().units && 1 in ForkIndex().units
    ensures ForkIndex().units[0].round == ForkIndex().units[1].round == 0
    ensures ForkIndex().units[0].creator == ForkIndex().units[1].creator == 0
  {
    ForkIndexIsFork();
    ForkWellFormed(ForkIndex());
  }

  /** The second round-0 unit is cited by the whole next round, the first by none of it. */
  lemma ForkCitations(u: Units)
    requires IsFork(u)
    ensures LayeredAbove(u, 0)
    ensures CitedByNone(u, CandidateOf(u.units[0]))
    ensures CitedByAll(u, CandidateOf(u.units[1]))
  {
    forall h | h in u.units && u.units[h].round >= 2
      ensures ParentsAt(u, u.units[h].parents, u.units[h].round - 1)
    {
      assert u.units[h].parents == [Some(h - 1)];
      assert h - 1 in u.units;
    }
    forall h | h in u.units && u.units[h].round == 1
      ensures Slot(u.units[h].parents, 0) == Some(1)
    {
      assert h == 2;
    }
  }

  /** Round 0's candidate list is the second unit, then the first. */
  lemma ForkCandidates(u: Units)
    requires IsFork(u)
    ensures WellFormed(u) && 0 in u.byRound
    ensures First(u, 0) == 0 && Others(u, 0) == [1] && CandidateList(u, 0) == [1, 0]
  {
    ForkWellFormed(u);
    assert u.byRound[0] == [0, 1];
    assert SortDescending([1]) == [1];
    assert [0, 1][1..] == [1];
    assert SortDescending([0, 1]) == Insert(0, [1]) == [1, 0];
  }

  /** With candidates `[1, 0]`, nobody citing unit 0 and everybody citing unit 1, unit 1 is elected. */
  lemma SecondElected(u: Units)
    requires WellFormed(u) && 0 in u.byRound && u.highest >= 4 && LayeredAbove(u, 0)
    requires First(u, 0) == 0 && Others(u, 0) == [1] && CandidateList(u, 0) == [1, 0]
    requires CitedByNone(u, CandidateOf(u.units[0])) && CitedByAll(u, CandidateOf(u.units[1]))
    ensures Sustains(u, 0, [1]) && RunFrom(u, 0, [1]) == Head(1)
    ensures var s := CandidateList(u, 0);
      Sustains(u, s[|s| - 1], s[..|s| - 1]) && RunFrom(u, s[|s| - 1], s[..|s| - 1]) == Head(1)
  {
    UnpopularFirstCandidate(u, 0);
    assert [1, 0][..1] == [1];
  }

  /** The first candidate (hash 0) is eliminated and the second (hash 1) is elected. */
  lemma ForkElectsSecondUnit(u: Units)
    requires IsFork(u)
    ensures WellFormed(u) && 0 in u.byRound
    ensures First(u, 0) == 0 && Others(u, 0) == [1] && CandidateList(u, 0) == [1, 0]
    ensures Sustains(u, 0, [1])
    ensures RunFrom(u, 0, [1]) == Head(1)
    ensures var s := CandidateList(u, 0);
      Sustains(u, s[|s| - 1], s[..|s| - 1]) && RunFrom(u, s[|s| - 1], s[..|s| - 1]) == Head(1)
  {
    ForkCandidates(u);
    ForkCitations(u);
    SecondElected(u);
  }

  /** `for_round` returns `Elected(h)` whenever running the round's candidates from the first elects `h`. */
  method ForRoundElects(round: Round, u: Units, h: Hash) returns (r: Result<ElectionResult, ()>)
    requires WellFormed(u) && u.highest >= round + 3
    requires var s := CandidateList(u, round);
      Sustains(u, s[|s| - 1], s[..|s| - 1]) && RunFrom(u, s[|s| - 1], s[..|s| - 1]) == Head(h)
    ensures r == Ok(Elected(h))
  {
    r := RoundElection.ForRound(round, u);
  }

  /** `for_round(0, ..)` on the forked chain returns `Elected` with the second unit. */
  method ForkForRound(u: Units) returns (r: Result<ElectionResult, ()>)
    requires IsFork(u)
    ensures r == Ok(Elected(1))
  {
    ForkElectsSecondUnit(u);
    r := ForRoundElects(0, u, 1);
  }
}

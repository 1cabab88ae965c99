/**
 * The situations the election's tests exercise, stated for every index of
 * their shape: a candidate cited by the whole next round is elected four
 * rounds above it, and one cited by nobody is eliminated three rounds above
 * it, so the coordinator elects the next candidate instead.
 */
module Scenarios {
  import opened Wrappers
  import opened Index
  import opened Voting
  import opened CandidateElections
  import opened RoundElections

  /** Every present parent is a known unit of round `r`. */
  ghost predicate ParentsAt(u: Units, parents: seq<Option<Hash>>, r: Round)
  {
    forall i :: 0 <= i < |parents| && parents[i].Some? ==>
      parents[i].value in u.units && u.units[parents[i].value].round == r
  }

  /** From round `round + 2` on, units cite only units of the round just below. */
  ghost predicate LayeredAbove(u: Units, round: Round)
  {
    forall h :: h in u.units && u.units[h].round >= round + 2 ==>
      ParentsAt(u, u.units[h].parents, u.units[h].round - 1)
  }

  /** Every unit of the next round cites the candidate in its creator's slot. */
  ghost predicate CitedByAll(u: Units, c: Candidate)
  {
    forall h :: h in u.units && u.units[h].round == c.round + 1 ==>
      Slot(u.units[h].parents, c.creator) == Some(c.hash)
  }

  /** No unit of the next round cites the candidate. */
  ghost predicate CitedByNone(u: Units, c: Candidate)
  {
    forall h :: h in u.units && u.units[h].round == c.round + 1 ==>
      Slot(u.units[h].parents, c.creator) != Some(c.hash)
  }

  /**
   * The vote of a unit at relative round 2 or more whose parents all voted
   * `b`: the parents are counted by `Decide` as a quorum for `b` and nothing
   * against.
   */
  lemma UniformParents(u: Units, c: Candidate, h: Hash, b: bool)
    requires WellFormed(u) && h in u.units && u.units[h].round >= c.round + 2
    requires var ps := u.units[h].parents;
      forall i :: 0 <= i < |ps| && ps[i].Some? ==> VoteOf(u, c, ps[i].value) == Ok(b)
    ensures PresentCount(u.units[h].parents) >= Threshold(u.size)
    ensures b ==> (VoteOf(u, c, h) ==
                   Decide(PresentCount(u.units[h].parents), 0, Threshold(u.size), u.units[h].round - c.round, c.hash))
    ensures !b ==> (VoteOf(u, c, h) ==
                    Decide(0, PresentCount(u.units[h].parents), Threshold(u.size), u.units[h].round - c.round, c.hash))
  {
    var v := u.units[h];
    var rel: nat := v.round - c.round;
    QuorumOf(u, h);
    VoteFromParents(u, c, h);
    TallyUniform(u, c, v.parents, c.round + rel, b);
  }

  /** A candidate cited by the whole next round collects votes for it up to relative round 3. */
  lemma {:induction false} PopularCandidateVotes(u: Units, c: Candidate, k: nat)
    requires WellFormed(u) && LayeredAbove(u, c.round) && CitedByAll(u, c)
    requires 1 <= k <= 3
    ensures forall h :: h in u.units && u.units[h].round == c.round + k ==> VoteOf(u, c, h) == Ok(true)
    decreases k
  {
    if k > 1 {
      PopularCandidateVotes(u, c, k - 1);
      forall h | h in u.units && u.units[h].round == c.round + k
        ensures VoteOf(u, c, h) == Ok(true)
      {
        UniformParents(u, c, h, true);
      }
    }
  }

  /** ... and every unit at relative round 4 elects it. */
  lemma PopularCandidateElected(u: Units, c: Candidate, h: Hash)
    requires WellFormed(u) && LayeredAbove(u, c.round) && CitedByAll(u, c)
    requires h in u.units && u.units[h].round == c.round + 4
    ensures VoteOf(u, c, h) == Err(ElectionDone(c.hash))
  {
    PopularCandidateVotes(u, c, 3);
    UniformParents(u, c, h, true);
  }

  /** A candidate cited by nobody collects votes against it up to relative round 2. */
  lemma {:induction false} UnpopularCandidateVotes(u: Units, c: Candidate, k: nat)
    requires WellFormed(u) && LayeredAbove(u, c.round) && CitedByNone(u, c)
    requires 1 <= k <= 2
    ensures forall h :: h in u.units && u.units[h].round == c.round + k ==> VoteOf(u, c, h) == Ok(false)
    decreases k
  {
    if k > 1 {
      UnpopularCandidateVotes(u, c, k - 1);
      forall h | h in u.units && u.units[h].round == c.round + k
        ensures VoteOf(u, c, h) == Ok(false)
      {
        UniformParents(u, c, h, false);
      }
    }
  }

  /** ... and every unit at relative round 3 eliminates it. */
  lemma UnpopularCandidateEliminated(u: Units, c: Candidate, h: Hash)
    requires WellFormed(u) && LayeredAbove(u, c.round) && CitedByNone(u, c)
    requires h in u.units && u.units[h].round == c.round + 3
    ensures VoteOf(u, c, h) == Err(EliminateCandidate)
  {
    UnpopularCandidateVotes(u, c, 2);
    UniformParents(u, c, h, false);
  }

  /**
   * `compute_votes` for a popular candidate: pending while the index ends
   * below relative round 4, elected as soon as it reaches it.
   */
  lemma PopularCandidateScan(u: Units, c: Candidate)
    requires WellFormed(u) && LayeredAbove(u, c.round) && CitedByAll(u, c)
    ensures u.highest < c.round + 4 ==> ScanRounds(u, c, c.round + 1) == Ok(())
    ensures u.highest >= c.round + 4 ==> ScanRounds(u, c, c.round + 1) == Err(ElectionDone(c.hash))
  {
    PopularCandidateVotes(u, c, 1);
    PopularCandidateVotes(u, c, 2);
    PopularCandidateVotes(u, c, 3);
    if u.highest < c.round + 4 {
      ScanRoundsQuiet(u, c, c.round + 1);
    } else {
      forall h | h in u.units && u.units[h].round == c.round + 4
        ensures VoteOf(u, c, h) == Err(ElectionDone(c.hash))
      {
        PopularCandidateElected(u, c, h);
      }
      ScanRoundsStopsAt(u, c, c.round + 1, c.round + 4, ElectionDone(c.hash));
    }
  }

  /** `compute_votes` for an unpopular candidate: eliminated once the index reaches relative round 3. */
  lemma UnpopularCandidateScan(u: Units, c: Candidate)
    requires WellFormed(u) && LayeredAbove(u, c.round) && CitedByNone(u, c)
    requires u.highest >= c.round + 3
    ensures ScanRounds(u, c, c.round + 1) == Err(EliminateCandidate)
  {
    UnpopularCandidateVotes(u, c, 1);
    UnpopularCandidateVotes(u, c, 2);
    forall h | h in u.units && u.units[h].round == c.round + 3
      ensures VoteOf(u, c, h) == Err(EliminateCandidate)
    {
      UnpopularCandidateEliminated(u, c, h);
    }
    ScanRoundsStopsAt(u, c, c.round + 1, c.round + 3, EliminateCandidate);
  }

  /** The first candidate of round `round` and the ones after it. */
  function First(u: Units, round: Round): (first: Hash)
    requires WellFormed(u) && round in u.byRound
    ensures first in u.units && u.units[first].round == round
    ensures forall h :: h in u.byRound[round] ==> first <= h
  {
    FirstCandidateIsSmallest(u, round);
    var s := CandidateList(u, round);
    s[|s| - 1]
  }

  function Others(u: Units, round: Round): (rest: seq<Hash>)
    requires WellFormed(u) && round in u.byRound
    ensures forall i :: 0 <= i < |rest| ==> rest[i] in u.units && u.units[rest[i]].round == round
  {
    FirstCandidateIsSmallest(u, round);
    var s := CandidateList(u, round);
    s[..|s| - 1]
  }

  /**
   * When the whole of round `round + 1` cites the smallest unit of round
   * `round`, the coordinator is pending with that candidate while the index
   * ends at `round + 3`, and elects it once the index reaches `round + 4`.
   */
  lemma PopularFirstCandidate(u: Units, round: Round)
    requires WellFormed(u) && round in u.byRound && LayeredAbove(u, round)
    requires CitedByAll(u, CandidateOf(u.units[First(u, round)]))
    ensures Sustains(u, First(u, round), Others(u, round))
    ensures u.highest < round + 4 ==>
              RunFrom(u, First(u, round), Others(u, round)) == Undecided(First(u, round), Others(u, round))
    ensures u.highest >= round + 4 ==>
              RunFrom(u, First(u, round), Others(u, round)) == Head(First(u, round))
  {
    FirstCandidateIsSmallest(u, round);
    var f, rest := First(u, round), Others(u, round);
    var c := CandidateOf(u.units[f]);
    assert c.hash == f && c.round == round by {
      assert HashesMatch(u);
    }
    PopularCandidateScan(u, c);
    if u.highest < round + 4 {
      assert CandidateScan(u, f) == Ok(());
      assert RunFrom(u, f, rest) == Settle(u, f, rest, Ok(()));
    } else {
      assert CandidateScan(u, f) == Err(ElectionDone(f));
      assert RunFrom(u, f, rest) == Settle(u, f, rest, Err(ElectionDone(f)));
    }
  }

  /**
   * When nobody in round `round + 1` cites the smallest unit of round
   * `round` but everybody cites the second smallest, the coordinator
   * eliminates the first and elects the second.
   */
  lemma UnpopularFirstCandidate(u: Units, round: Round)
    requires WellFormed(u) && round in u.byRound && LayeredAbove(u, round)
    requires u.highest >= round + 4
    requires |Others(u, round)| > 0
    requires CitedByNone(u, CandidateOf(u.units[First(u, round)]))
    requires var rest := Others(u, round);
      CitedByAll(u, CandidateOf(u.units[rest[|rest| - 1]]))
    ensures Sustains(u, First(u, round), Others(u, round))
    ensures var rest := Others(u, round);
      RunFrom(u, First(u, round), rest) == Head(rest[|rest| - 1])
  {
    FirstCandidateIsSmallest(u, round);
    var rest := Others(u, round);
    var first := CandidateOf(u.units[First(u, round)]);
    assert rest[|rest| - 1] in u.byRound[round];
    var second := CandidateOf(u.units[rest[|rest| - 1]]);
    UnpopularCandidateScan(u, first);
    PopularCandidateScan(u, second);
    assert CandidateScan(u, First(u, round)) == Err(EliminateCandidate);
    assert CandidateScan(u, rest[|rest| - 1]) == Err(ElectionDone(rest[|rest| - 1]));
    var last, init := rest[|rest| - 1], rest[..|rest| - 1];
    assert Sustains(u, last, init);
    assert RunFrom(u, last, init) == Head(last);
    assert RunFrom(u, First(u, round), rest) == RunFrom(u, last, init);
  }

  /**
   * The two steps of `easy_election`: with the index three rounds above
   * `round`, `for_round` is pending on the smallest unit; once a unit four
   * rounds above arrives, `add_voter` on the pending coordinator elects it.
   */
  method EasyElection(u: Units, u2: Units, round: Round, v: Hash) returns (first: ElectionResult, second: ElectionResult)
    requires Grows(u, u2) && round in u.byRound && u.highest == round + 3
    requires LayeredAbove(u, round) && LayeredAbove(u2, round)
    requires CitedByAll(u, CandidateOf(u.units[First(u, round)]))
    requires CitedByAll(u2, CandidateOf(u.units[First(u, round)]))
    requires v in u2.units && u2.units[v].round == round + 4
    ensures first.Pending?
    ensures second == Elected(First(u, round))
  {
    var head := First(u, round);
    PopularFirstCandidate(u, round);
    FirstCandidateIsSmallest(u, round);
    var started := RoundElection.ForRound(round, u);
    first := started.value;
    var e := first.election;
    ElectionSurvivesGrowth(e, u, u2);
    var c := CandidateOf(u.units[head]);
    assert u2.units[head] == u.units[head];
    PopularCandidateElected(u2, c, v);
    second := e.AddVoter(v, u2);
  }
}

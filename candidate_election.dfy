/**
 * `CandidateElection`: virtual voting on one candidate, with the votes
 * already computed kept in a cache that only grows. Every method is proved
 * to return what the uncached rule in module Voting gives.
 */
module CandidateElections {
  import opened Wrappers
  import opened Index
  import opened Voting

  class CandidateElection {
    const round: Round
    const candidateCreator: NodeIndex
    const candidateHash: Hash
    var votes: map<Hash, bool>

    function Cand(): Candidate
    {
      Candidate(round, candidateCreator, candidateHash)
    }

    /** The cache agrees with the voting rule on index `u`. */
    ghost predicate Valid(u: Units)
      reads this
    {
      CacheConsistent(u, Cand(), votes)
    }

    /** `new`: an election for `candidate` with an empty cache. */
    constructor (candidate: Unit)
      ensures Cand() == CandidateOf(candidate)
      ensures votes == map[]
    {
      round := candidate.round;
      candidateCreator := candidate.creator;
      candidateHash := candidate.hash;
      votes := map[];
    }

    /** `parent_votes`: the votes of the present parents, counted in slot order. */
    method ParentVotes(parents: seq<Option<Hash>>, u: Units, ghost bound: Round)
      returns (r: Result<(nat, nat), VoteError>)
      requires Valid(u) && ParentsBelow(u, parents, bound)
      modifies this
      ensures Valid(u) && KeepsEntries(old(votes), votes)
      ensures r == Tally(u, Cand(), parents, bound)
      decreases bound, 0, |parents|
    {
      var votesFor, votesAgainst := 0, 0;
      var i := 0;
      while i < |parents|
        invariant 0 <= i <= |parents|
        invariant Valid(u) && KeepsEntries(old(votes), votes)
        invariant Tally(u, Cand(), parents[..i], bound) == Ok((votesFor, votesAgainst))
      {
        TallyStep(u, Cand(), parents, bound, i);
        if parents[i].Some? {
          var v := Vote(parents[i].value, u);
          if v.Err? {
            TallyStopsAtPrefix(u, Cand(), parents, bound, i + 1);
            return Err(v.error);
          }
          if v.value {
            votesFor := votesFor + 1;
          } else {
            votesAgainst := votesAgainst + 1;
          }
        }
        i := i + 1;
      }
      assert parents[..i] == parents;
      r := Ok((votesFor, votesAgainst));
    }

    /** `vote_from_parents`. */
    method VoteFromParents(parents: seq<Option<Hash>>, relativeRound: nat, u: Units)
      returns (r: Result<bool, VoteError>)
      requires Valid(u) && ParentsBelow(u, parents, round + relativeRound)
      requires PresentCount(parents) >= Threshold(|parents|)
      modifies this
      ensures Valid(u) && KeepsEntries(old(votes), votes)
      ensures r == ParentDecision(u, Cand(), parents, relativeRound)
      decreases round + relativeRound, 1, 0
    {
      var threshold := Threshold(|parents|);
      var counts := ParentVotes(parents, u, round + relativeRound);
      if counts.Err? {
        return Err(counts.error);
      }
      var (votesFor, votesAgainst) := counts.value;
      TallyCounts(u, Cand(), parents, round + relativeRound);
      assert votesFor + votesAgainst >= threshold;
      r := Decide(votesFor, votesAgainst, threshold, relativeRound, candidateHash);
    }

    /** `compute_vote`. */
    method ComputeVote(voter: Unit, u: Units) returns (r: Result<bool, VoteError>)
      requires Valid(u) && IsUnitOf(u, voter)
      modifies this
      ensures Valid(u) && KeepsEntries(old(votes), votes)
      ensures r == UnitVote(u, Cand(), voter)
      decreases voter.round, 2, 0
    {
      if voter.round <= round {
        return Ok(false);
      }
      var relativeRound := voter.round - round;
      if relativeRound == 1 {
        return Ok(Slot(voter.parents, candidateCreator) == Some(candidateHash));
      }
      r := VoteFromParents(voter.parents, relativeRound, u);
    }

    /** `vote`: the cached vote if there is one; otherwise compute it and cache it if it is a vote. */
    method Vote(voter: Hash, u: Units) returns (r: Result<bool, VoteError>)
      requires Valid(u) && voter in u.units
      modifies this
      ensures Valid(u) && KeepsEntries(old(votes), votes)
      ensures r == VoteOf(u, Cand(), voter)
      ensures r.Ok? ==> voter in votes
      ensures r.Err? ==> voter !in votes
      decreases u.units[voter].round, 3, 0
    {
      if voter in votes {
        return Ok(votes[voter]);
      }
      var unit := u.units[voter];
      r := ComputeVote(unit, u);
      if r.Err? {
        return;
      }
      votes := votes[unit.hash := r.value];
    }

    /** `add_voter`: compute one voter's vote; the election goes on unless that vote ends it. */
    method AddVoter(voter: Hash, u: Units) returns (r: Result<(), VoteError>)
      requires Valid(u) && voter in u.units
      modifies this
      ensures Valid(u) && KeepsEntries(old(votes), votes)
      ensures r.Ok? <==> VoteOf(u, Cand(), voter).Ok?
      ensures r.Err? ==> r.error == VoteOf(u, Cand(), voter).error
      ensures r.Ok? ==> voter in votes
    {
      var v := Vote(voter, u);
      r := if v.Ok? then Ok(()) else Err(v.error);
    }

    /** The inner loop of `compute_votes`: the votes of one round's units, in order, stopping at the first that ends the election. */
    method VoteRound(voters: seq<Hash>, u: Units) returns (r: Result<(), VoteError>)
      requires Valid(u) && forall h :: h in voters ==> h in u.units
      modifies this
      ensures Valid(u) && KeepsEntries(old(votes), votes)
      ensures r == ScanList(u, Cand(), voters)
    {
      var i := 0;
      while i < |voters|
        invariant 0 <= i <= |voters|
        invariant Valid(u) && KeepsEntries(old(votes), votes)
        invariant ScanList(u, Cand(), voters) == ScanList(u, Cand(), voters[i..])
      {
        ghost var before := votes;
        var v := Vote(voters[i], u);
        KeepsEntriesTransitive(old(votes), before, votes);
        ScanListStep(u, Cand(), voters, i);
        if v.Err? {
          return Err(v.error);
        }
        i := i + 1;
      }
      r := Ok(());
    }

    /** `compute_votes`: every known unit above the candidate, round by round, until a vote ends the election. */
    method ComputeVotes(u: Units) returns (r: Result<(), VoteError>)
      requires Valid(u)
      modifies this
      ensures Valid(u) && KeepsEntries(old(votes), votes)
      ensures r == ScanRounds(u, Cand(), round + 1)
    {
      var rnd := round + 1;
      while rnd <= u.highest
        invariant round + 1 <= rnd
        invariant Valid(u) && KeepsEntries(old(votes), votes)
        invariant ScanRounds(u, Cand(), round + 1) == ScanRounds(u, Cand(), rnd)
        decreases u.highest + 1 - rnd
      {
        ScanRoundsStep(u, Cand(), rnd);
        ghost var before := votes;
        var v := VoteRound(u.byRound[rnd], u);
        KeepsEntriesTransitive(old(votes), before, votes);
        if v.Err? {
          return v;
        }
        rnd := rnd + 1;
      }
      r := Ok(());
    }
  }
}

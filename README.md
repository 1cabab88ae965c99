# Head election in the AlephBFT extender

This project models the head election of AlephBFT's extender
(`consensus/src/extension/election.rs`) and proves properties of it.

The extender picks one head unit for each round of the unit DAG. It does
this by virtual voting. Every later unit votes on a candidate of the round.
- At relative round 1, a unit votes for the candidate iff it cites the
  candidate in the slot of the candidate's creator.
- From relative round 2 on, a unit follows its parents when they are
  unanimous. When they are split, it takes the common vote of that relative
  round.
- From relative round 3 on, a quorum of parents that agrees with the common
  vote ends the election. If the common vote is true, the candidate is
  elected. If it is false, the candidate is eliminated.

`RoundElection` tries the units of the round in increasing hash order. It
moves to the next unit whenever the current candidate is eliminated.

The model has six modules, one per file:

- `Index` (`units.dfy`): the unit index (Rust `Units`) as an abstract value.
  - A unit's `NodeMap` of parents is a `seq<Option<Hash>>` with one slot per
    committee member.
  - `WellFormed` collects what the surrounding protocol guarantees about the
    index: causal completeness, a quorum of parents above round 0, and
    `in_round` listing exactly the units of each round. It also requires
    "units come in order": no round up to the highest one is empty.
- `Voting` (`voting.dfy`): the voting rule without a cache, as recursive
  functions. These are `CommonVote`, `Decide`, `VoteOf`, `UnitVote`,
  `ParentDecision` and `Tally`. `ScanList` and `ScanRounds` give the outcome
  of replaying all known units. The lemmas about them say:
  - what a count of the parents' votes means;
  - when an election can end;
  - that votes are stable as the index grows.
- `CandidateElections` (`candidate_election.dfy`): the class
  `CandidateElection`. Its `votes` map is the memoising cache. Every method
  is proved to return exactly what the uncached rule gives. Every method is
  also proved to keep the cache consistent with that rule and to keep old
  entries.
- `RoundElections` (`round_election.dfy`): the candidate list (sorted, then
  reversed), the coordinator class `RoundElection` and `ElectionResult`. Two
  ghost functions specify the coordinator:
  - `RunFrom` starts a fresh election on a candidate;
  - `Settle` handles the outcome of a candidate's election.
  The methods are proved to produce the coordinator state these functions
  describe.
- `Scenarios` (`scenarios.dfy`): the situations of the file's unit tests,
  stated for every index of their shape rather than for one concrete DAG.
- `Chain` (`chain.dfy`): two concrete indexes, proved well formed. For
  each, the model proves how the election ends.
  - A one-node committee with one unit per round: `for_round` ends in
    `Elected` with the round-0 unit. With rounds 0 to 3 the coordinator is
    pending, and adding the round-4 unit ends it in `Elected`.
  - A forked variant with two round-0 units: the smaller is eliminated and
    the second is elected.

## Model

| member | source | states |
|---|---|---|
| `Voting.CommonVote` | consensus/src/extension/election.rs:8-18 | Defines `common_vote`, following lines 10-17 branch for branch. Relative round 3 gives false, rounds up to 4 give true, and later rounds give true on odd rounds. Its meaning is stated by `CommonVoteFollowsSchedule`. |
| `Voting.CommonVoteFollowsSchedule` | consensus/src/extension/election.rs:8-18 | The common vote is the schedule true, false, true at relative rounds 2 to 4, then alternates starting with true at round 5. `Schedule` is a reference definition by recursion on the round. |
| `Index.PresentCount` | consensus/src/extension/election.rs:50 | The number of parents that `values()` yields is at most the number of slots, and it is zero exactly when every slot is empty. |
| `Index.Threshold` | consensus/src/extension/election.rs:69 | `size*2/3+1` is the least count greater than two thirds of the committee: `3(t-1) <= 2*size < 3t`. |
| `Voting.Decide` | consensus/src/extension/election.rs:72-91 | Elected iff relative round >= 3, common vote true and votes for >= threshold. Eliminated iff relative round >= 3, common vote false and votes against >= threshold. Any stop happens at relative round >= 3, and an election happens only at >= 4. Otherwise the vote is false with no votes for, true with votes for and none against, and the common vote when the votes are split. |
| `Voting.VoteOf` | consensus/src/extension/election.rs:112-123 | Defines `vote` without its cache: the vote of the unit stored under the voter's hash. The cached methods are proved to return it. |
| `Voting.UnitVote` | consensus/src/extension/election.rs:94-110 | Defines `compute_vote`. A voter not above the candidate's round votes false. One round above, it votes whether it cites the candidate. Higher up, it takes the decision from its parents. |
| `Voting.ParentDecision` | consensus/src/extension/election.rs:62-92 | Defines `vote_from_parents`. It counts the parents' votes, passes on a stop from the count, and otherwise applies `Decide` with threshold `size*2/3+1` of the `NodeMap` size. |
| `Voting.Tally` | consensus/src/extension/election.rs:44-60 | Defines `parent_votes`. It counts the present parents' votes left to right, for and against. It stops at the first parent whose vote stops, with that vote's error. |
| `Voting.ScanList` | consensus/src/extension/election.rs:133-135 | Defines the inner loop of `compute_votes`. It takes the votes of one round's units in `in_round` order and stops at the first vote that stops. |
| `Voting.ScanRounds` | consensus/src/extension/election.rs:130-138 | Defines the outer loop of `compute_votes`. It replays the rounds from `r` up to the highest round and stops at the first round whose replay stops. |
| `Voting.DirectVote` | consensus/src/extension/election.rs:99-107 | A voter not above the candidate votes false. A voter one round above votes true iff its parent slot for the candidate's creator holds the candidate's hash. |
| `Voting.TallyStep` | consensus/src/extension/election.rs:50-57 | Counting one more slot adds nothing for an empty slot. For a present parent, it stops with that parent's error or adds one to the bucket of its vote. |
| `Voting.TallyStopsAtPrefix` | consensus/src/extension/election.rs:54 | Once a parent's vote has stopped the count (the `?`), the later slots do not change the outcome. |
| `Voting.TallyCounts` | consensus/src/extension/election.rs:49-59 | In a completed count, votes for plus votes against equals the number of present parents. |
| `Voting.TallyBuckets` | consensus/src/extension/election.rs:50-58 | A completed count's two buckets are exactly the number of present parents voting for and the number voting against. `CountVotes` is an independent count, slot by slot, that never stops. |
| `Voting.VoteFromParents` | consensus/src/extension/election.rs:103-109 | From relative round 2 on, a unit's vote is the decision taken from its parents at its relative round. |
| `Index.QuorumOf` | consensus/src/extension/election.rs:69-72 | A known unit above round 0 has one parent slot per node and at least `size*2/3+1` present parents. This is what makes the `assert!` hold. |
| `Voting.TallyVisitsAll` | consensus/src/extension/election.rs:50-58 | A completed count means every present parent's vote went through. |
| `Voting.TallyUnanimous` | consensus/src/extension/election.rs:86-91 | No votes for means every present parent voted against, and no votes against means every present parent voted for. This is the unanimity the vote follows. |
| `Voting.TallyBlames` | consensus/src/extension/election.rs:54 | A count that stops was stopped by a present parent whose own vote stopped with the same error. |
| `Voting.TallyUniform` | consensus/src/extension/election.rs:49-59 | When every present parent votes `b`, all present parents land in the bucket of `b` and the other bucket is empty. |
| `Voting.VoteStopShape` | consensus/src/extension/election.rs:74-83 | A vote can end the election only at relative round >= 3. It can elect only the candidate itself, and only at relative round >= 4. |
| `Voting.TallyStopShape` | consensus/src/extension/election.rs:71 | A count of parents below round `bound` that stops has `bound` more than 3 rounds above the candidate. An election needs more than 4 rounds, and names the candidate. |
| `Voting.VoteStable` | consensus/src/extension/election.rs:112-123 | A unit's vote does not change when units are added to the index. This is why cached votes stay right. |
| `Voting.TallyStable` | consensus/src/extension/election.rs:44-60 | The count of a unit's parents does not change when units are added to the index. |
| `Voting.CacheSurvivesGrowth` | consensus/src/extension/election.rs:29 | A consistent vote cache stays consistent with the voting rule on any larger index. |
| `Voting.ScanListBlames` | consensus/src/extension/election.rs:133-135 | A replay of one round that stops was stopped by one of that round's voters, with the same error. |
| `Voting.ScanRoundsBlames` | consensus/src/extension/election.rs:132-136 | A replay that stops was stopped by a known unit between the first replayed round and the highest round. |
| `Voting.ScanListStep` | consensus/src/extension/election.rs:133-135 | Replaying voter `i` either stops with its vote's error or goes on to voter `i+1`. |
| `Voting.ScanRoundsStep` | consensus/src/extension/election.rs:132-135 | Every round up to the highest has its list of units. Replaying it either stops with that round's error or goes on to the next round. |
| `Voting.ScanListQuiet` | consensus/src/extension/election.rs:133-135 | A round whose votes all go through is replayed without stopping. |
| `Voting.ScanRoundsQuiet` | consensus/src/extension/election.rs:130-138 | If every vote from round `r` up goes through, the replay from `r` finishes with `Ok`. |
| `Voting.ScanRoundsStopsAt` | consensus/src/extension/election.rs:130-138 | If the votes below round `k` go through and every vote of round `k` stops with `e`, the replay stops with `e`. |
| `Voting.TallyAllOk` | consensus/src/extension/election.rs:50-58 | A count in which every present parent's vote goes through finishes. This is the converse of `TallyVisitsAll`. |
| `Voting.ScanListVisitsAll` | consensus/src/extension/election.rs:133-135 | A replay of one round that finishes let every vote of that round through. |
| `Voting.ReplayStopsOnOwnDecision` | consensus/src/extension/election.rs:51-53 | Replayed round by round from above the candidate, a count of parents always finishes. A replay that stops is stopped by a voter above relative round 1, through its own decision, and the count of that voter's parents finished. |
| `Voting.ComputeVotesStopsOnOwnDecision` | consensus/src/extension/election.rs:51-53 | The replay of `compute_votes` stops only on a voter's own decision. The count of that voter's parents went through, as the comment at lines 51-53 promises. |
| `Voting.ScanStopShape` | consensus/src/extension/election.rs:160-161 | Replaying all units above a candidate stops only once the index reaches 3 rounds above it. An election needs 4 rounds and names the candidate. This is the look-ahead `for_round` waits for. |
| `Index.RoundsPresent` | consensus/src/extension/election.rs:133 | Every round from 1 to the highest is listed by `in_round`, as distinct units of that round. |
| `CandidateElections.CandidateElection.constructor` | consensus/src/extension/election.rs:35-42 | A fresh election knows the candidate's round, creator and hash, and has an empty cache. |
| `CandidateElections.CandidateElection.ParentVotes` | consensus/src/extension/election.rs:44-60 | Returns the count of the present parents' votes, stopping at the first parent whose vote stops. The cache stays consistent and keeps its old entries. |
| `CandidateElections.CandidateElection.VoteFromParents` | consensus/src/extension/election.rs:62-92 | Returns the uncached decision from the parents, with threshold `size*2/3+1` of the `NodeMap` size. The `assert!` that votes for plus against reach the threshold is proved from the quorum of present parents. |
| `CandidateElections.CandidateElection.ComputeVote` | consensus/src/extension/election.rs:94-110 | Returns the vote of the given unit as the three-case rule defines it. |
| `CandidateElections.CandidateElection.Vote` | consensus/src/extension/election.rs:112-123 | Returns the voter's vote, whether or not it was cached. A vote that goes through is now cached. A vote that stops adds no entry for the voter. Entries for parents whose votes went through first may be added. Old entries are kept. |
| `CandidateElections.CandidateElection.AddVoter` | consensus/src/extension/election.rs:125-128 | The election goes on iff the voter's vote goes through. Otherwise it reports the vote's error. |
| `CandidateElections.CandidateElection.VoteRound` | consensus/src/extension/election.rs:133-135 | Voting all units of one round in order returns what the replay of that list gives. |
| `CandidateElections.CandidateElection.ComputeVotes` | consensus/src/extension/election.rs:130-138 | Returns what replaying every round above the candidate up to the highest gives, and leaves the cache consistent. |
| `RoundElections.CandidateList` | consensus/src/extension/election.rs:165-170 | Defines the candidate list: the round's units from `in_round`, sorted and then reversed. Its meaning is stated by `SortDescending` and `FirstCandidateIsSmallest`. |
| `RoundElections.Insert` | consensus/src/extension/election.rs:168-170 | Inserting a new hash into a strictly descending list keeps it strictly descending and adds exactly that hash. |
| `RoundElections.HeadAboveTail` | consensus/src/extension/election.rs:168-170 | The head of a descending list stays above the rest of the list after a smaller hash is inserted into it. |
| `RoundElections.SortDescending` | consensus/src/extension/election.rs:168-170 | Sorting and then reversing distinct hashes gives a strictly descending permutation of them. |
| `RoundElections.DescendingLastIsSmallest` | consensus/src/extension/election.rs:168-172 | The last entry of a descending permutation is the smallest hash. The entries before it are exactly the other hashes. |
| `RoundElections.SortedLastIsSmallest` | consensus/src/extension/election.rs:168-172 | The first `pop` from the sorted list yields the smallest hash, and leaves all the others. |
| `RoundElections.FirstCandidateIsSmallest` | consensus/src/extension/election.rs:165-173 | The first candidate is the unit of the round with the smallest hash. The remaining candidates are the round's other units. |
| `RoundElections.CandidateScan` | consensus/src/extension/election.rs:174-176 | Defines the outcome of a fresh `CandidateElection` for a unit that runs `compute_votes`. It replays every round above the unit's round. |
| `RoundElections.Settle` | consensus/src/extension/election.rs:180-201 | Defines `handle_candidate_election_result` on outcomes. `Ok` stays pending on the same candidates. `ElectionDone(h)` elects `h`. `EliminateCandidate` pops the next candidate and runs its election from scratch. |
| `RoundElections.RunFrom` | consensus/src/extension/election.rs:203-206 | Defines `compute_votes` of the coordinator: settle the outcome of a fresh run for the current candidate. |
| `RoundElections.PopKeepsCandidates` | consensus/src/extension/election.rs:191-195 | Popping the next candidate keeps the list descending, of units of the round, and above the new candidate. |
| `RoundElections.ElectedHeadIsCandidate` | consensus/src/extension/election.rs:180-201 | An elected head is the current or a remaining candidate, so it is a unit of the election's round. Its own election is the one that ended with `ElectionDone`. |
| `RoundElections.ElectedHeadIsFirstSurvivor` | consensus/src/extension/election.rs:143-144 | Candidates are tried in increasing hash order. Every candidate with a smaller hash than the elected head was eliminated. |
| `RoundElections.RoundElection.constructor` | consensus/src/extension/election.rs:175 | A coordinator holds the given remaining candidates and current election. |
| `RoundElections.RoundElection.ForRound` | consensus/src/extension/election.rs:159-178 | Fails iff the highest round is below `round + 3`. Otherwise it reports the outcome of running the candidates from the smallest hash of the round upward. A pending result holds a newly allocated coordinator. Beyond the index's guarantees, its only assumption is that a candidate is left whenever one is eliminated. |
| `RoundElections.RoundElection.HandleCandidateElectionResult` | consensus/src/extension/election.rs:180-201 | A finished replay keeps the coordinator pending on the same candidate. An elimination pops the next candidate and replays for it. An election reports the head. A pending result is this coordinator. |
| `RoundElections.RoundElection.ComputeVotes` | consensus/src/extension/election.rs:203-206 | Reports the outcome of a fresh run from the current candidate. |
| `RoundElections.RoundElection.AddVoter` | consensus/src/extension/election.rs:208-212 | Reports what handling the voter's vote, as its outcome, gives. |
| `RoundElections.ElectionSurvivesGrowth` | consensus/src/extension/election.rs:141-146 | A valid coordinator stays valid when units are added to the index, so `add_voter` can follow `for_round`. |
| `Scenarios.UniformParents` | consensus/src/extension/election.rs:86-91 | A unit whose parents all vote `b` sees a quorum for `b` and none against. |
| `Scenarios.PopularCandidateVotes` | consensus/src/extension/election.rs:247-269 | If the whole next round cites the candidate, every unit at relative rounds 1 to 3 votes for it. |
| `Scenarios.PopularCandidateElected` | consensus/src/extension/election.rs:273-290 | ... and every unit at relative round 4 elects it. |
| `Scenarios.UnpopularCandidateVotes` | consensus/src/extension/election.rs:293-331 | If no unit of the next round cites the candidate, every unit at relative rounds 1 and 2 votes against it. |
| `Scenarios.UnpopularCandidateEliminated` | consensus/src/extension/election.rs:293-331 | ... and every unit at relative round 3 eliminates it. |
| `Scenarios.PopularCandidateScan` | consensus/src/extension/election.rs:247-290 | The replay for a popular candidate finishes while the index is below relative round 4. It elects the candidate once the index reaches that round. |
| `Scenarios.UnpopularCandidateScan` | consensus/src/extension/election.rs:293-331 | The replay for an unpopular candidate eliminates it once the index reaches relative round 3. |
| `Scenarios.First` | consensus/src/extension/election.rs:171-172 | The first candidate is a unit of the round no larger than any other. |
| `Scenarios.Others` | consensus/src/extension/election.rs:165-170 | The remaining candidates are units of the round. |
| `Scenarios.PopularFirstCandidate` | consensus/src/extension/election.rs:247-290 | When the whole next round cites the smallest unit, the coordinator is pending on it while the index ends below round + 4. It elects the unit from round + 4 on (test `immediate_election` and the first step of `easy_election`). |
| `Scenarios.EasyElection` | consensus/src/extension/election.rs:247-269 | Test `easy_election` in both steps. With the index at round + 3, `for_round` is pending. Then `add_voter` of a round + 4 unit, into the pending coordinator on the grown index, elects the smallest unit. |
| `Scenarios.UnpopularFirstCandidate` | consensus/src/extension/election.rs:293-331 | When nobody cites the smallest unit and everybody cites the second smallest, the coordinator elects the second smallest (test `eliminates_unpopular`). |
| `Chain.ChainIndexWellFormed` | consensus/src/extension/election.rs:165-167 | The guarantees assumed of the index hold of a concrete index with units up to any round. So the preconditions built on `Index.WellFormed` can be met. |
| `Chain.ForkIndexWellFormed` | consensus/src/extension/election.rs:164 | A well-formed index can hold a fork: two round-0 units of the same creator. |
| `Chain.ChainElectsFirstUnit` | consensus/src/extension/election.rs:273-290 | On the concrete one-node chain, the only candidate of round 0 is cited by round 1. Its election is pending while the chain ends below round 4 and elected once it reaches round 4. |
| `Chain.ChainForRound` | consensus/src/extension/election.rs:273-290 | Test `immediate_election` on a concrete well-formed index: `for_round(0)` returns `Elected` with the round-0 unit. |
| `Chain.ChainEasyElection` | consensus/src/extension/election.rs:247-269 | Test `easy_election` on concrete well-formed indexes: pending on rounds 0 to 3, elected by the round-4 unit. |
| `Chain.ForRoundElects` | consensus/src/extension/election.rs:159-178 | `for_round` returns `Elected(h)` whenever running the round's candidates from the first elects `h`. |
| `Chain.ForkElectsSecondUnit` | consensus/src/extension/election.rs:293-331 | On the concrete forked chain, the candidate list is the second unit and then the first. The smaller unit is eliminated and the second is elected. |
| `Chain.ForkForRound` | consensus/src/extension/election.rs:293-331 | Test `eliminates_unpopular` on a concrete well-formed index: `for_round(0)` returns `Elected` with the second smallest unit. |

## Left out

- The unit index (`Units`), `ExtenderUnit`, `NodeMap` and the `Hasher` trait are not part of this model. The index is an abstract value whose guarantees (`Index.WellFormed`) are stated as preconditions. Hashes are integers with their usual order.
- `parents.size()` is taken as the number of slots of the `NodeMap`, which a well-formed index sets to the committee size.
- `Round` is a `u16` in the source. The model uses unbounded naturals, so the wrap-around or overflow panic of `round + 3` and `self.round + 1` near `u16::MAX` is not modelled.
- `NodeCount` additions are unbounded; a committee large enough to overflow `usize` is not modelled.
- Panics are modelled as preconditions, never as outcomes:
  - the `expect` on `units.get` of a voter or candidate becomes `voter in u.units`;
  - `in_round(...).expect("units come in order")` becomes part of `Index.WellFormed`;
  - the `assert!` in `vote_from_parents` is proved from the quorum guarantee;
  - `candidates.pop().expect("there is a candidate")` becomes the preconditions `Sustains`/`Survives`. These say that whenever a candidate is eliminated, another one remains.
- `RoundElections.SortDescending`: the source calls the standard library `sort` and then `reverse`. The model defines the resulting list by insertion into a descending list and proves it equal as a permutation in strictly descending order. The sorting algorithm itself is not modelled. `in_round` lists distinct hashes, so this list is unique.
- `CandidateElections.CandidateElection.ComputeVotes`: the inner loop over one round's units is its own method, `VoteRound`. The source has both loops in one function.
- Ownership: the source's `RoundElection` and `CandidateElection` methods take `self` by value and hand it back inside `Ok(...)` or `Pending(...)`. The model mutates the object in place and returns `Pending(this)`. No object is reused after it is consumed, so no aliasing is introduced.
- The `HashMap` of cached votes is a Dafny `map`; hashing and iteration order of the map do not affect the result.
- Two promises about the election's outcome are not proved:
  - units of the round that arrive after `for_round` built its candidate list are consistently eliminated (election.rs:164);
  - the elected head does not depend on the order in which `add_voter` receives units.

  `Index.WellFormed` admits forks (two units of one creator in one round), and the model states no assumption about forks under which these would hold.
- Liveness (every election eventually ends) is not stated. The model proves what any outcome is, not that one is reached.
- The unit tests build concrete DAGs with real hashes. The `Scenarios` module states them for every index of the same shape. The shapes are:
  - layered parents;
  - a candidate cited by all units of the next round, or by none.

  `Chain` also states and proves the tests `immediate_election`, `easy_election` and `eliminates_unpopular` on concrete indexes. These indexes use a one-node committee, while the tests build DAGs for larger committees.

  The test `refuses_to_elect_with_insufficient_units` and the test with an empty index are covered by `RoundElections.RoundElection.ForRound`'s `Err` iff `highest < round + 3`.

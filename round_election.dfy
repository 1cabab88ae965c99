/**
 * `RoundElection`: the coordinator that elects the head of one round. It
 * tries the units of the round as candidates in increasing hash order and
 * moves on to the next one whenever the current one is eliminated.
 */
module RoundElections {
  import opened Wrappers
  import opened Index
  import opened Voting
  import opened CandidateElections

  // ---------------------------------------------------------------------
  // The candidate list: `sort` followed by `reverse`.

  predicate StrictlyDescending(s: seq<Hash>)
  {
    forall i, j :: 0 <= i < j < |s| ==> s[i] > s[j]
  }

  function Insert(x: Hash, s: seq<Hash>): (r: seq<Hash>)
    requires StrictlyDescending(s) && x !in s
    ensures StrictlyDescending(r)
    ensures multiset(r) == multiset(s) + multiset{x}
  {
    if s == [] || x > s[0] then [x] + s
    else
      var tail := Insert(x, s[1..]);
      HeadAboveTail(x, s, tail);
      [s[0]] + tail
  }

  /** Putting the head back in front of the tail with `x` inserted keeps the order and the contents. */
  lemma HeadAboveTail(x: Hash, s: seq<Hash>, tail: seq<Hash>)
    requires StrictlyDescending(s) && s != [] && x < s[0]
    requires StrictlyDescending(tail) && multiset(tail) == multiset(s[1..]) + multiset{x}
    ensures StrictlyDescending([s[0]] + tail)
    ensures multiset([s[0]] + tail) == multiset(s) + multiset{x}
  {
    assert s == [s[0]] + s[1..];
    forall k | 0 <= k < |tail|
      ensures tail[k] < s[0]
    {
      assert tail[k] in multiset(tail);
      if tail[k] != x {
        assert tail[k] in s[1..];
      }
    }
  }

  /** The hashes of `s`, largest first, so that popping from the back yields them in increasing order. */
  function SortDescending(s: seq<Hash>): (r: seq<Hash>)
    requires Distinct(s)
    ensures StrictlyDescending(r)
    ensures multiset(r) == multiset(s)
  {
    if s == [] then []
    else
      assert s == [s[0]] + s[1..];
      var rest := SortDescending(s[1..]);
      assert s[0] !in multiset(s[1..]);
      Insert(s[0], rest)
  }

  /** The candidate list of round `round` as `for_round` builds it, before the first pop. */
  function CandidateList(u: Units, round: Round): seq<Hash>
    requires WellFormed(u) && round in u.byRound
  {
    SortDescending(u.byRound[round])
  }

  /**
   * In a strictly descending list with the contents of `hs`, the last hash
   * is the smallest of `hs`, and the others are the rest of `hs`.
   */
  lemma DescendingLastIsSmallest(s: seq<Hash>, hs: seq<Hash>)
    requires StrictlyDescending(s) && multiset(s) == multiset(hs) && hs != []
    ensures s != [] &&
      s[|s| - 1] in hs &&
      (forall h :: h in hs ==> s[|s| - 1] <= h) &&
      (forall h :: h in s[..|s| - 1] <==> h in hs && h != s[|s| - 1])
  {
    assert hs[0] in multiset(s);
    var m := s[|s| - 1];
    assert m in multiset(hs);
    forall h | h in hs
      ensures m <= h && exists j :: 0 <= j < |s| && s[j] == h
    {
      assert h in multiset(s);
      var j :| 0 <= j < |s| && s[j] == h;
      if j < |s| - 1 {
        assert s[j] > m;
      }
    }
    forall h
      ensures h in s[..|s| - 1] <==> h in hs && h != m
    {
      if h in s[..|s| - 1] {
        var j :| 0 <= j < |s| - 1 && s[..|s| - 1][j] == h;
        assert s[j] == h && s[j] > m;
        assert h in multiset(s);
      }
      if h in hs && h != m {
        var j :| 0 <= j < |s| && s[j] == h;
        assert s[..|s| - 1][j] == h;
      }
    }
  }

  /** After sorting, the last hash is the smallest, and the others are the rest of the list. */
  lemma SortedLastIsSmallest(hs: seq<Hash>)
    requires Distinct(hs) && hs != []
    ensures var s := SortDescending(hs);
      s != [] &&
      s[|s| - 1] in hs &&
      (forall h :: h in hs ==> s[|s| - 1] <= h) &&
      (forall h :: h in s[..|s| - 1] <==> h in hs && h != s[|s| - 1])
  {
    DescendingLastIsSmallest(SortDescending(hs), hs);
  }

  /** The first candidate: the unit of the round with the smallest hash. */
  lemma FirstCandidateIsSmallest(u: Units, round: Round)
    requires WellFormed(u) && round in u.byRound
    ensures var s := CandidateList(u, round);
      s != [] &&
      s[|s| - 1] in u.byRound[round] &&
      (forall h :: h in u.byRound[round] ==> s[|s| - 1] <= h) &&
      (forall h :: h in s[..|s| - 1] <==> h in u.byRound[round] && h != s[|s| - 1])
  {
    SortedLastIsSmallest(u.byRound[round]);
  }

  // ---------------------------------------------------------------------
  // What the coordinator computes, as functions of the index.

  /** The outcome of `compute_votes` for a fresh election on the unit `h`. */
  function CandidateScan(u: Units, h: Hash): Result<(), VoteError>
    requires WellFormed(u) && h in u.units
  {
    ScanRounds(u, CandidateOf(u.units[h]), u.units[h].round + 1)
  }

  /**
   * `pop().expect("there is a candidate")` never fails: whenever the
   * candidate `current` is eliminated, another one remains, and so on.
   */
  ghost predicate Sustains(u: Units, current: Hash, rest: seq<Hash>)
    decreases |rest|, 1
  {
    WellFormed(u) && current in u.units &&
    (CandidateScan(u, current) == Err(EliminateCandidate) ==> Survives(u, rest))
  }

  ghost predicate Survives(u: Units, rest: seq<Hash>)
    decreases |rest|, 0
  {
    rest != [] && Sustains(u, rest[|rest| - 1], rest[..|rest| - 1])
  }

  /** The state of an election: still on `current` with `rest` to come, or decided. */
  datatype Verdict = Undecided(current: Hash, rest: seq<Hash>) | Head(head: Hash)

  /** `handle_candidate_election_result` on the outcome `res` of the current candidate's election. */
  ghost function Settle(u: Units, current: Hash, rest: seq<Hash>, res: Result<(), VoteError>): Verdict
    requires WellFormed(u)
    requires res == Err(EliminateCandidate) ==> Survives(u, rest)
    decreases |rest|, 0
  {
    match res
    case Ok(_) => Undecided(current, rest)
    case Err(ElectionDone(h)) => Head(h)
    case Err(EliminateCandidate) => RunFrom(u, rest[|rest| - 1], rest[..|rest| - 1])
  }

  /** `compute_votes` of a coordinator whose current election on `current` is fresh. */
  ghost function RunFrom(u: Units, current: Hash, rest: seq<Hash>): Verdict
    requires Sustains(u, current, rest)
    decreases |rest|, 1
  {
    Settle(u, current, rest, CandidateScan(u, current))
  }

  /** The candidates `current` and `rest` are units of round `round`, listed as the coordinator keeps them. */
  ghost predicate CandidatesOfRound(u: Units, round: Round, current: Hash, rest: seq<Hash>)
  {
    current in u.units && u.units[current].round == round &&
    StrictlyDescending(rest) &&
    forall i :: 0 <= i < |rest| ==> rest[i] in u.units && u.units[rest[i]].round == round && current < rest[i]
  }

  lemma {:induction false} PopKeepsCandidates(u: Units, round: Round, current: Hash, rest: seq<Hash>)
    requires CandidatesOfRound(u, round, current, rest) && rest != []
    ensures CandidatesOfRound(u, round, rest[|rest| - 1], rest[..|rest| - 1])
  {
    var next := rest[|rest| - 1];
    var init := rest[..|rest| - 1];
    forall i | 0 <= i < |init|
      ensures next < init[i]
    {
      assert rest[i] > rest[|rest| - 1];
    }
  }

  /**
   * An elected head is one of the candidates, hence a unit of the round, and
   * its own election is the one that ended with `ElectionDone`.
   */
  lemma {:induction false} ElectedHeadIsCandidate(u: Units, round: Round, current: Hash, rest: seq<Hash>)
    requires Sustains(u, current, rest) && CandidatesOfRound(u, round, current, rest)
    requires RunFrom(u, current, rest).Head?
    ensures var h := RunFrom(u, current, rest).head;
      (h == current || h in rest) && h in u.units && u.units[h].round == round &&
      CandidateScan(u, h) == Err(ElectionDone(h))
    decreases |rest|
  {
    var res := CandidateScan(u, current);
    var c := CandidateOf(u.units[current]);
    ScanStopShape(u, c);
    if res == Err(EliminateCandidate) {
      PopKeepsCandidates(u, round, current, rest);
      ElectedHeadIsCandidate(u, round, rest[|rest| - 1], rest[..|rest| - 1]);
    }
  }

  /**
   * Candidates are tried in increasing hash order: the elected head is the
   * smallest candidate that was not eliminated.
   */
  lemma {:induction false} ElectedHeadIsFirstSurvivor(u: Units, round: Round, current: Hash, rest: seq<Hash>)
    requires Sustains(u, current, rest) && CandidatesOfRound(u, round, current, rest)
    requires RunFrom(u, current, rest).Head?
    ensures var h := RunFrom(u, current, rest).head;
      (current < h ==> CandidateScan(u, current) == Err(EliminateCandidate)) &&
      forall i :: 0 <= i < |rest| && rest[i] < h ==> CandidateScan(u, rest[i]) == Err(EliminateCandidate)
    decreases |rest|
  {
    var h := RunFrom(u, current, rest).head;
    var res := CandidateScan(u, current);
    ElectedHeadIsCandidate(u, round, current, rest);
    var c := CandidateOf(u.units[current]);
    ScanStopShape(u, c);
    if res == Err(EliminateCandidate) {
      var init := rest[..|rest| - 1];
      var next := rest[|rest| - 1];
      PopKeepsCandidates(u, round, current, rest);
      ElectedHeadIsFirstSurvivor(u, round, next, init);
      ElectedHeadIsCandidate(u, round, next, init);
      forall i | 0 <= i < |rest| && rest[i] < h
        ensures CandidateScan(u, rest[i]) == Err(EliminateCandidate)
      {
        if i < |rest| - 1 {
          assert init[i] == rest[i];
        } else if h != next {
          var j :| 0 <= j < |init| && init[j] == h;
          assert rest[j] > rest[|rest| - 1];
        }
      }
    } else {
      assert h == current;
      forall i | 0 <= i < |rest|
        ensures rest[i] >= h
      {
      }
    }
  }

  // ---------------------------------------------------------------------
  // The coordinator.

  datatype ElectionResult = Pending(election: RoundElection) | Elected(head: Hash)

  /** `r` is the coordinator state that the verdict `v` describes. */
  ghost predicate Reports(r: ElectionResult, v: Verdict, u: Units)
    reads if r.Pending? then {r.election, r.election.voting} else {}
  {
    match r
    case Elected(h) => v == Head(h)
    case Pending(e) =>
      v.Undecided? && e.Valid(u) && e.voting.candidateHash == v.current && e.candidates == v.rest
  }

  class RoundElection {
    /** The remaining candidates, largest hash first. */
    var candidates: seq<Hash>
    var voting: CandidateElection

    ghost predicate Valid(u: Units)
      reads this, voting
    {
      voting.Valid(u) &&
      voting.candidateHash in u.units &&
      voting.Cand() == CandidateOf(u.units[voting.candidateHash]) &&
      CandidatesOfRound(u, voting.round, voting.candidateHash, candidates)
    }

    constructor (candidates: seq<Hash>, voting: CandidateElection)
      ensures this.candidates == candidates && this.voting == voting
    {
      this.candidates := candidates;
      this.voting := voting;
    }

    /**
     * `for_round`: refuses unless the index is three rounds ahead of `round`;
     * otherwise starts with the smallest unit of the round as candidate and
     * replays all known units.
     */
    static method ForRound(round: Round, u: Units) returns (r: Result<ElectionResult, ()>)
      requires WellFormed(u)
      requires u.highest >= round + 3 ==>
                 var s := CandidateList(u, round); Sustains(u, s[|s| - 1], s[..|s| - 1])
      ensures r.Err? <==> u.highest < round + 3
      ensures r.Ok? ==> var s := CandidateList(u, round); Reports(r.value, RunFrom(u, s[|s| - 1], s[..|s| - 1]), u)
      ensures r.Ok? && r.value.Pending? ==> fresh(r.value.election) && fresh(r.value.election.voting)
    {
      if u.highest < round + 3 {
        return Err(());
      }
      RoundsPresent(u, round + 3);
      var candidates := SortDescending(u.byRound[round]);
      FirstCandidateIsSmallest(u, round);
      var first := candidates[|candidates| - 1];
      candidates := candidates[..|candidates| - 1];
      var candidate := u.units[first];
      var voting := new CandidateElection(candidate);
      var election := new RoundElection(candidates, voting);
      assert election.Valid(u) by {
        assert CandidatesOfRound(u, round, first, candidates) by {
          var s := CandidateList(u, round);
          forall i | 0 <= i < |candidates|
            ensures candidates[i] in u.byRound[round] && first < candidates[i]
          {
            assert candidates[i] in s[..|s| - 1];
            assert s[i] > s[|s| - 1];
          }
        }
      }
      var result := election.ComputeVotes(u);
      r := Ok(result);
    }

    /** `handle_candidate_election_result`. */
    method HandleCandidateElectionResult(res: Result<(), VoteError>, u: Units) returns (r: ElectionResult)
      requires Valid(u)
      requires res == Err(EliminateCandidate) ==> Survives(u, candidates)
      modifies this, voting
      ensures Reports(r, Settle(u, old(voting.candidateHash), old(candidates), res), u)
      ensures r.Pending? ==> r.election == this && (voting == old(voting) || fresh(voting))
      decreases |candidates|, 0
    {
      match res
      case Ok(_) =>
        r := Pending(this);
      case Err(EliminateCandidate) =>
        PopKeepsCandidates(u, voting.round, voting.candidateHash, candidates);
        var next := candidates[|candidates| - 1];
        candidates := candidates[..|candidates| - 1];
        var candidate := u.units[next];
        voting := new CandidateElection(candidate);
        r := ComputeVotes(u);
      case Err(ElectionDone(head)) =>
        r := Elected(head);
    }

    /** `compute_votes`: replay all known units into the current election. */
    method ComputeVotes(u: Units) returns (r: ElectionResult)
      requires Valid(u) && Sustains(u, voting.candidateHash, candidates)
      modifies this, voting
      ensures Reports(r, RunFrom(u, old(voting.candidateHash), old(candidates)), u)
      ensures r.Pending? ==> r.election == this && (voting == old(voting) || fresh(voting))
      decreases |candidates|, 1
    {
      var res := voting.ComputeVotes(u);
      r := HandleCandidateElectionResult(res, u);
    }

    /** `add_voter`: feed one unit to the current election. */
    method AddVoter(voter: Hash, u: Units) returns (r: ElectionResult)
      requires Valid(u) && voter in u.units
      requires VoteOf(u, voting.Cand(), voter) == Err(EliminateCandidate) ==> Survives(u, candidates)
      modifies this, voting
      ensures var v := VoteOf(u, old(voting.Cand()), voter);
        Reports(r, Settle(u, old(voting.candidateHash), old(candidates), if v.Ok? then Ok(()) else Err(v.error)), u)
    {
      var res := voting.AddVoter(voter, u);
      r := HandleCandidateElectionResult(res, u);
    }
  }

  /** A coordinator stays valid when units are added to the index. */
  lemma ElectionSurvivesGrowth(e: RoundElection, u: Units, u2: Units)
    requires e.Valid(u) && Grows(u, u2)
    ensures e.Valid(u2)
  {
    CacheSurvivesGrowth(u, u2, e.voting.Cand(), e.voting.votes);
  }
}

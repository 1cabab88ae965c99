/**
 * The rule by which a unit votes on a candidate for the head of a round:
 * the common vote schedule, the decision taken from the parents' votes, and
 * the vote of every unit as a recursive function of the index. This is the
 * specification the memoising `CandidateElection` is proved against.
 */
module Voting {
  import opened Wrappers
  import opened Index

  /** `common_vote`: the default vote at a relative round. */
  function CommonVote(relativeRound: nat): bool
  {
    if relativeRound == 3 then false
    else if relativeRound <= 4 then true
    else relativeRound % 2 == 1
  }

  /**
   * The schedule as the protocol describes it: true, false, true at relative
   * rounds 2 to 4, then alternating, starting with true at round 5.
   */
  function Schedule(k: nat): bool
  {
    if k <= 4 then k != 3
    else if k == 5 then true
    else !Schedule(k - 1)
  }

  lemma {:induction false} CommonVoteFollowsSchedule(k: nat)
    ensures CommonVote(k) == Schedule(k)
  {
    if k > 5 {
      CommonVoteFollowsSchedule(k - 1);
    }
  }

  /** Why the recursive computation of a vote stopped early. */
  datatype VoteError = EliminateCandidate | ElectionDone(head: Hash)

  /** What a `CandidateElection` knows about its candidate unit. */
  datatype Candidate = Candidate(round: Round, creator: NodeIndex, hash: Hash)

  function CandidateOf(v: Unit): Candidate
  {
    Candidate(v.round, v.creator, v.hash)
  }

  /**
   * The decision of `vote_from_parents` once the parents' votes are counted:
   * from relative round 3 on, a quorum agreeing with the common vote ends the
   * election; otherwise the voter follows unanimous parents and falls back on
   * the common vote when they are split.
   */
  function Decide(votesFor: nat, votesAgainst: nat, threshold: nat, relativeRound: nat, candidateHash: Hash)
    : (r: Result<bool, VoteError>)
    ensures r.Err? ==> relativeRound >= 3
    ensures r == Err(ElectionDone(candidateHash)) <==>
              relativeRound >= 3 && CommonVote(relativeRound) && votesFor >= threshold
    ensures r == Err(EliminateCandidate) <==>
              relativeRound >= 3 && !CommonVote(relativeRound) && votesAgainst >= threshold
    ensures r.Err? ==> r.error == EliminateCandidate || r.error == ElectionDone(candidateHash)
    ensures r.Err? && r.error.ElectionDone? ==> relativeRound >= 4
    ensures r.Ok? && votesFor == 0 ==> !r.value
    ensures r.Ok? && votesFor > 0 && votesAgainst == 0 ==> r.value
    ensures r.Ok? && votesFor > 0 && votesAgainst > 0 ==> r.value == CommonVote(relativeRound)
  {
    var common := CommonVote(relativeRound);
    if relativeRound >= 3 && common && votesFor >= threshold then Err(ElectionDone(candidateHash))
    else if relativeRound >= 3 && !common && votesAgainst >= threshold then Err(EliminateCandidate)
    else if votesFor == 0 then Ok(false)
    else if votesAgainst == 0 then Ok(true)
    else Ok(common)
  }

  /** The vote of the unit with hash `voter` on candidate `c` (`vote`, without the cache). */
  function VoteOf(u: Units, c: Candidate, voter: Hash): Result<bool, VoteError>
    requires WellFormed(u) && voter in u.units
    decreases u.units[voter].round, 3, 0
  {
    UnitVote(u, c, u.units[voter])
  }

  /** `compute_vote`. */
  function UnitVote(u: Units, c: Candidate, voter: Unit): Result<bool, VoteError>
    requires WellFormed(u) && IsUnitOf(u, voter)
    decreases voter.round, 2, 0
  {
    if voter.round <= c.round then Ok(false)
    else if voter.round - c.round == 1 then Ok(Slot(voter.parents, c.creator) == Some(c.hash))
    else ParentDecision(u, c, voter.parents, voter.round - c.round)
  }

  /** `vote_from_parents`. */
  function ParentDecision(u: Units, c: Candidate, parents: seq<Option<Hash>>, relativeRound: nat)
    : Result<bool, VoteError>
    requires WellFormed(u) && ParentsBelow(u, parents, c.round + relativeRound)
    decreases c.round + relativeRound, 1, 0
  {
    var counts := Tally(u, c, parents, c.round + relativeRound);
    if counts.Err? then Err(counts.error)
    else Decide(counts.value.0, counts.value.1, Threshold(|parents|), relativeRound, c.hash)
  }

  /**
   * `parent_votes`: the parents' votes counted left to right, for and against;
   * the first parent whose vote ends the election ends the count.
   */
  function Tally(u: Units, c: Candidate, parents: seq<Option<Hash>>, bound: Round)
    : Result<(nat, nat), VoteError>
    requires WellFormed(u) && ParentsBelow(u, parents, bound)
    decreases bound, 0, |parents|
  {
    if parents == [] then Ok((0, 0))
    else
      match Tally(u, c, parents[..|parents| - 1], bound)
      case Err(e) => Err(e)
      case Ok((votesFor, votesAgainst)) =>
        match parents[|parents| - 1]
        case None => Ok((votesFor, votesAgainst))
        case Some(p) =>
          match VoteOf(u, c, p)
          case Err(e) => Err(e)
          case Ok(b) => if b then Ok((votesFor + 1, votesAgainst)) else Ok((votesFor, votesAgainst + 1))
  }

  /** The number of present parents whose vote is `b`, slot by slot, without stopping. */
  function CountVotes(u: Units, c: Candidate, parents: seq<Option<Hash>>, bound: Round, b: bool): nat
    requires WellFormed(u) && ParentsBelow(u, parents, bound)
    decreases |parents|
  {
    if parents == [] then 0
    else
      var last := parents[|parents| - 1];
      CountVotes(u, c, parents[..|parents| - 1], bound, b) +
      (if last.Some? && VoteOf(u, c, last.value) == Ok(b) then 1 else 0)
  }

  /** The first of `voters`, in order, whose vote ends the election. */
  function ScanList(u: Units, c: Candidate, voters: seq<Hash>): Result<(), VoteError>
    requires WellFormed(u) && forall h :: h in voters ==> h in u.units
  {
    if voters == [] then Ok(())
    else
      match VoteOf(u, c, voters[0])
      case Err(e) => Err(e)
      case Ok(_) => ScanList(u, c, voters[1..])
  }

  /** `compute_votes` from round `r` on: the voters of each round up to the highest, in turn. */
  function ScanRounds(u: Units, c: Candidate, r: Round): Result<(), VoteError>
    requires WellFormed(u) && r > 0
    decreases u.highest + 1 - r
  {
    if r > u.highest then Ok(())
    else
      RoundsPresent(u, r);
      match ScanList(u, c, u.byRound[r])
      case Err(e) => Err(e)
      case Ok(_) => ScanRounds(u, c, r + 1)
  }

  /** The cache of a `CandidateElection` holds only finished votes, each equal to the specified one. */
  ghost predicate CacheConsistent(u: Units, c: Candidate, votes: map<Hash, bool>)
  {
    WellFormed(u) && forall h :: h in votes ==> h in u.units && VoteOf(u, c, h) == Ok(votes[h])
  }

  /** Old cache entries are kept unchanged. */
  ghost predicate KeepsEntries(before: map<Hash, bool>, after: map<Hash, bool>)
  {
    forall h :: h in before ==> h in after && after[h] == before[h]
  }

  lemma KeepsEntriesTransitive(a: map<Hash, bool>, b: map<Hash, bool>, c: map<Hash, bool>)
    requires KeepsEntries(a, b) && KeepsEntries(b, c)
    ensures KeepsEntries(a, c)
  {
  }

  // ---------------------------------------------------------------------
  // The base cases of `compute_vote`.

  lemma DirectVote(u: Units, c: Candidate, voter: Hash)
    requires WellFormed(u) && voter in u.units
    ensures u.units[voter].round <= c.round ==> VoteOf(u, c, voter) == Ok(false)
    ensures u.units[voter].round == c.round + 1 ==>
              VoteOf(u, c, voter) == Ok(Slot(u.units[voter].parents, c.creator) == Some(c.hash))
  {
  }

  /** From relative round 2 on, a unit's vote is the decision taken from its parents. */
  lemma VoteFromParents(u: Units, c: Candidate, voter: Hash)
    requires WellFormed(u) && voter in u.units && u.units[voter].round >= c.round + 2
    ensures VoteOf(u, c, voter) ==
              ParentDecision(u, c, u.units[voter].parents, u.units[voter].round - c.round)
  {
    assert VoteOf(u, c, voter) == UnitVote(u, c, u.units[voter]);
  }

  // ---------------------------------------------------------------------
  // What the count of the parents' votes means.

  /** One more slot of the count: what counting `parents[i]` adds to the count of the slots before it. */
  lemma TallyStep(u: Units, c: Candidate, parents: seq<Option<Hash>>, bound: Round, i: nat)
    requires WellFormed(u) && ParentsBelow(u, parents, bound) && i < |parents|
    requires Tally(u, c, parents[..i], bound).Ok?
    ensures var t := Tally(u, c, parents[..i], bound).value;
      Tally(u, c, parents[..i + 1], bound) ==
        if parents[i].None? then Ok(t)
        else match VoteOf(u, c, parents[i].value)
          case Err(e) => Err(e)
          case Ok(b) => if b then Ok((t.0 + 1, t.1)) else Ok((t.0, t.1 + 1))
  {
    assert parents[..i + 1][..i] == parents[..i];
  }

  /** Once the count has stopped at a prefix, it stops there for the whole list. */
  lemma {:induction false} TallyStopsAtPrefix(u: Units, c: Candidate, parents: seq<Option<Hash>>, bound: Round, i: nat)
    requires WellFormed(u) && ParentsBelow(u, parents, bound) && i <= |parents|
    requires Tally(u, c, parents[..i], bound).Err?
    ensures Tally(u, c, parents, bound) == Tally(u, c, parents[..i], bound)
    decreases |parents|
  {
    if i < |parents| {
      var init := parents[..|parents| - 1];
      assert init[..i] == parents[..i];
      TallyStopsAtPrefix(u, c, init, bound, i);
    } else {
      assert parents[..i] == parents;
    }
  }

  /**
   * A completed count has put every present parent in exactly one bucket:
   * the two buckets add up to the number of present parents.
   */
  lemma {:induction false} TallyCounts(u: Units, c: Candidate, parents: seq<Option<Hash>>, bound: Round)
    requires WellFormed(u) && ParentsBelow(u, parents, bound)
    requires Tally(u, c, parents, bound).Ok?
    ensures Tally(u, c, parents, bound).value.0 + Tally(u, c, parents, bound).value.1 == PresentCount(parents)
    decreases |parents|
  {
    if parents != [] {
      TallyCounts(u, c, parents[..|parents| - 1], bound);
    }
  }

  /**
   * Each bucket of a completed count holds exactly the present parents that
   * voted that way.
   */
  lemma {:induction false} TallyBuckets(u: Units, c: Candidate, parents: seq<Option<Hash>>, bound: Round)
    requires WellFormed(u) && ParentsBelow(u, parents, bound)
    requires Tally(u, c, parents, bound).Ok?
    ensures Tally(u, c, parents, bound).value ==
              (CountVotes(u, c, parents, bound, true), CountVotes(u, c, parents, bound, false))
    decreases |parents|
  {
    if parents != [] {
      TallyBuckets(u, c, parents[..|parents| - 1], bound);
    }
  }

  /** A completed count has seen the vote of every present parent go through. */
  lemma {:induction false} TallyVisitsAll(u: Units, c: Candidate, parents: seq<Option<Hash>>, bound: Round)
    requires WellFormed(u) && ParentsBelow(u, parents, bound)
    requires Tally(u, c, parents, bound).Ok?
    ensures forall i :: 0 <= i < |parents| && parents[i].Some? ==> VoteOf(u, c, parents[i].value).Ok?
    decreases |parents|
  {
    if parents != [] {
      var init := parents[..|parents| - 1];
      TallyVisitsAll(u, c, init, bound);
      forall i | 0 <= i < |parents| && parents[i].Some?
        ensures VoteOf(u, c, parents[i].value).Ok?
      {
        if i < |init| {
          assert init[i] == parents[i];
        }
      }
    }
  }

  /**
   * Each present parent lands in the bucket of its vote: an empty bucket for
   * means every present parent voted against, and the other way round.
   */
  lemma {:induction false} TallyUnanimous(u: Units, c: Candidate, parents: seq<Option<Hash>>, bound: Round)
    requires WellFormed(u) && ParentsBelow(u, parents, bound)
    requires Tally(u, c, parents, bound).Ok?
    ensures Tally(u, c, parents, bound).value.0 == 0 ==>
              forall i :: 0 <= i < |parents| && parents[i].Some? ==> VoteOf(u, c, parents[i].value) == Ok(false)
    ensures Tally(u, c, parents, bound).value.1 == 0 ==>
              forall i :: 0 <= i < |parents| && parents[i].Some? ==> VoteOf(u, c, parents[i].value) == Ok(true)
    decreases |parents|
  {
    if parents != [] {
      var init := parents[..|parents| - 1];
      TallyUnanimous(u, c, init, bound);
      var t := Tally(u, c, parents, bound).value;
      forall i | 0 <= i < |parents| && parents[i].Some?
        ensures t.0 == 0 ==> VoteOf(u, c, parents[i].value) == Ok(false)
        ensures t.1 == 0 ==> VoteOf(u, c, parents[i].value) == Ok(true)
      {
        if i < |init| {
          assert init[i] == parents[i];
        }
      }
    }
  }

  /** A count that stops is stopped by a present parent whose own vote stopped. */
  lemma {:induction false} TallyBlames(u: Units, c: Candidate, parents: seq<Option<Hash>>, bound: Round)
    requires WellFormed(u) && ParentsBelow(u, parents, bound)
    requires Tally(u, c, parents, bound).Err?
    ensures exists i :: 0 <= i < |parents| && parents[i].Some? &&
              VoteOf(u, c, parents[i].value) == Err(Tally(u, c, parents, bound).error)
    decreases |parents|
  {
    var init := parents[..|parents| - 1];
    if Tally(u, c, init, bound).Err? {
      TallyBlames(u, c, init, bound);
      var i :| 0 <= i < |init| && init[i].Some? && VoteOf(u, c, init[i].value) == Err(Tally(u, c, init, bound).error);
      assert parents[i] == init[i];
    } else {
      assert parents[|parents| - 1].Some?;
    }
  }

  /** When every present parent votes `b`, all of them land in the bucket for `b`. */
  lemma {:induction false} TallyUniform(u: Units, c: Candidate, parents: seq<Option<Hash>>, bound: Round, b: bool)
    requires WellFormed(u) && ParentsBelow(u, parents, bound)
    requires forall i :: 0 <= i < |parents| && parents[i].Some? ==> VoteOf(u, c, parents[i].value) == Ok(b)
    ensures Tally(u, c, parents, bound) ==
              if b then Ok((PresentCount(parents), 0)) else Ok((0, PresentCount(parents)))
    decreases |parents|
  {
    if parents != [] {
      var init := parents[..|parents| - 1];
      assert forall i :: 0 <= i < |init| ==> init[i] == parents[i];
      TallyUniform(u, c, init, bound, b);
    }
  }

  // ---------------------------------------------------------------------
  // When an election can end.

  /**
   * A vote can only end the election at relative round 3 or later, and it
   * can only elect (at relative round 4 or later) the candidate itself.
   */
  lemma {:induction false} VoteStopShape(u: Units, c: Candidate, voter: Hash)
    requires WellFormed(u) && voter in u.units
    requires VoteOf(u, c, voter).Err?
    ensures u.units[voter].round >= c.round + 3
    ensures VoteOf(u, c, voter).error.ElectionDone? ==>
              VoteOf(u, c, voter).error == ElectionDone(c.hash) && u.units[voter].round >= c.round + 4
    decreases u.units[voter].round, 1
  {
    var v := u.units[voter];
    if v.round > c.round + 1 {
      var rel := v.round - c.round;
      assert VoteOf(u, c, voter) == ParentDecision(u, c, v.parents, rel);
      if Tally(u, c, v.parents, v.round).Err? {
        TallyStopShape(u, c, v.parents, v.round);
      }
    }
  }

  lemma {:induction false} TallyStopShape(u: Units, c: Candidate, parents: seq<Option<Hash>>, bound: Round)
    requires WellFormed(u) && ParentsBelow(u, parents, bound)
    requires Tally(u, c, parents, bound).Err?
    ensures bound > c.round + 3
    ensures Tally(u, c, parents, bound).error.ElectionDone? ==>
              Tally(u, c, parents, bound).error == ElectionDone(c.hash) && bound > c.round + 4
    decreases bound, 0
  {
    TallyBlames(u, c, parents, bound);
    var i :| 0 <= i < |parents| && parents[i].Some? &&
             VoteOf(u, c, parents[i].value) == Err(Tally(u, c, parents, bound).error);
    VoteStopShape(u, c, parents[i].value);
  }

  // ---------------------------------------------------------------------
  // Votes do not change when units are added to the index.

  lemma {:induction false} VoteStable(u: Units, u2: Units, c: Candidate, voter: Hash)
    requires Grows(u, u2) && voter in u.units
    ensures VoteOf(u2, c, voter) == VoteOf(u, c, voter)
    decreases u.units[voter].round, 1
  {
    var v := u.units[voter];
    assert u2.units[voter] == v;
    if v.round > c.round + 1 {
      var rel := v.round - c.round;
      TallyStable(u, u2, c, v.parents, v.round);
      assert VoteOf(u, c, voter) == ParentDecision(u, c, v.parents, rel);
      assert VoteOf(u2, c, voter) == ParentDecision(u2, c, v.parents, rel);
    }
  }

  lemma {:induction false} TallyStable(u: Units, u2: Units, c: Candidate, parents: seq<Option<Hash>>, bound: Round)
    requires Grows(u, u2) && ParentsBelow(u, parents, bound)
    ensures ParentsBelow(u2, parents, bound)
    ensures Tally(u2, c, parents, bound) == Tally(u, c, parents, bound)
    decreases bound, 0, |parents|
  {
    if parents != [] {
      var init := parents[..|parents| - 1];
      TallyStable(u, u2, c, init, bound);
      var last := parents[|parents| - 1];
      if last.Some? {
        VoteStable(u, u2, c, last.value);
      }
    }
  }

  /** A consistent cache stays consistent when the index grows. */
  lemma CacheSurvivesGrowth(u: Units, u2: Units, c: Candidate, votes: map<Hash, bool>)
    requires Grows(u, u2) && CacheConsistent(u, c, votes)
    ensures CacheConsistent(u2, c, votes)
  {
    forall h | h in votes
      ensures h in u2.units && VoteOf(u2, c, h) == Ok(votes[h])
    {
      VoteStable(u, u2, c, h);
    }
  }

  // ---------------------------------------------------------------------
  // What scanning the rounds in order yields.

  lemma {:induction false} ScanListBlames(u: Units, c: Candidate, voters: seq<Hash>)
    requires WellFormed(u) && forall h :: h in voters ==> h in u.units
    requires ScanList(u, c, voters).Err?
    ensures exists i :: 0 <= i < |voters| && VoteOf(u, c, voters[i]) == Err(ScanList(u, c, voters).error)
  {
    if VoteOf(u, c, voters[0]).Ok? {
      ScanListBlames(u, c, voters[1..]);
      var i :| 0 <= i < |voters[1..]| && VoteOf(u, c, voters[1..][i]) == Err(ScanList(u, c, voters[1..]).error);
      assert voters[1..][i] == voters[i + 1];
    }
  }

  /** A scan that stops is stopped by a known voter at or above the first round scanned. */
  lemma {:induction false} ScanRoundsBlames(u: Units, c: Candidate, r: Round)
    requires WellFormed(u) && r > 0
    requires ScanRounds(u, c, r).Err?
    ensures exists h :: h in u.units && r <= u.units[h].round <= u.highest &&
              VoteOf(u, c, h) == Err(ScanRounds(u, c, r).error)
    decreases u.highest + 1 - r
  {
    RoundsPresent(u, r);
    var voters := u.byRound[r];
    if ScanList(u, c, voters).Err? {
      ScanListBlames(u, c, voters);
    } else {
      ScanRoundsBlames(u, c, r + 1);
    }
  }

  /** One voter of the list: a vote that goes through moves the scan on, one that stops ends it. */
  lemma ScanListStep(u: Units, c: Candidate, voters: seq<Hash>, i: nat)
    requires WellFormed(u) && (forall h :: h in voters ==> h in u.units) && i < |voters|
    ensures VoteOf(u, c, voters[i]).Err? ==> ScanList(u, c, voters[i..]) == Err(VoteOf(u, c, voters[i]).error)
    ensures VoteOf(u, c, voters[i]).Ok? ==> ScanList(u, c, voters[i..]) == ScanList(u, c, voters[i + 1..])
  {
    assert voters[i..][0] == voters[i];
    assert voters[i..][1..] == voters[i + 1..];
  }

  /** One round of the scan. */
  lemma ScanRoundsStep(u: Units, c: Candidate, r: Round)
    requires WellFormed(u) && 0 < r <= u.highest
    ensures r in u.byRound && forall h :: h in u.byRound[r] ==> h in u.units
    ensures ScanList(u, c, u.byRound[r]).Err? ==> ScanRounds(u, c, r) == ScanList(u, c, u.byRound[r])
    ensures ScanList(u, c, u.byRound[r]).Ok? ==> ScanRounds(u, c, r) == ScanRounds(u, c, r + 1)
  {
    RoundsPresent(u, r);
  }

  /** A scan in which no vote stops finishes. */
  lemma {:induction false} ScanListQuiet(u: Units, c: Candidate, voters: seq<Hash>)
    requires WellFormed(u) && forall h :: h in voters ==> h in u.units
    requires forall i :: 0 <= i < |voters| ==> VoteOf(u, c, voters[i]).Ok?
    ensures ScanList(u, c, voters) == Ok(())
  {
    if voters != [] {
      ScanListQuiet(u, c, voters[1..]);
    }
  }

  lemma {:induction false} ScanRoundsQuiet(u: Units, c: Candidate, r: Round)
    requires WellFormed(u) && r > 0
    requires forall h :: h in u.units && u.units[h].round >= r ==> VoteOf(u, c, h).Ok?
    ensures ScanRounds(u, c, r) == Ok(())
    decreases u.highest + 1 - r
  {
    if r <= u.highest {
      RoundsPresent(u, r);
      ScanListQuiet(u, c, u.byRound[r]);
      ScanRoundsQuiet(u, c, r + 1);
    }
  }

  /**
   * If every vote below round `k` goes through and every vote at round `k`
   * stops with `e`, then scanning from `r` stops with `e`.
   */
  lemma {:induction false} ScanRoundsStopsAt(u: Units, c: Candidate, r: Round, k: Round, e: VoteError)
    requires WellFormed(u) && 0 < r <= k <= u.highest
    requires forall h :: h in u.units && r <= u.units[h].round < k ==> VoteOf(u, c, h).Ok?
    requires forall h :: h in u.units && u.units[h].round == k ==> VoteOf(u, c, h) == Err(e)
    ensures ScanRounds(u, c, r) == Err(e)
    decreases k - r
  {
    RoundsPresent(u, r);
    var voters := u.byRound[r];
    if r == k {
      assert VoteOf(u, c, voters[0]) == Err(e);
    } else {
      ScanListQuiet(u, c, voters);
      ScanRoundsStopsAt(u, c, r + 1, k, e);
    }
  }

  /**
   * No election ends before relative round 3, and none elects before relative
   * round 4: this is why `for_round` waits for three rounds of look-ahead.
   * An election that does end elects only its own candidate.
   */
  lemma ScanStopShape(u: Units, c: Candidate)
    requires WellFormed(u)
    requires ScanRounds(u, c, c.round + 1).Err?
    ensures u.highest >= c.round + 3
    ensures ScanRounds(u, c, c.round + 1).error.ElectionDone? ==>
              ScanRounds(u, c, c.round + 1).error == ElectionDone(c.hash) && u.highest >= c.round + 4
  {
    ScanRoundsBlames(u, c, c.round + 1);
    var h :| h in u.units && c.round + 1 <= u.units[h].round <= u.highest &&
             VoteOf(u, c, h) == Err(ScanRounds(u, c, c.round + 1).error);
    VoteStopShape(u, c, h);
  }

  /** A count in which every present parent's vote goes through finishes: the converse of `TallyVisitsAll`. */
  lemma {:induction false} TallyAllOk(u: Units, c: Candidate, parents: seq<Option<Hash>>, bound: Round)
    requires WellFormed(u) && ParentsBelow(u, parents, bound)
    requires forall i :: 0 <= i < |parents| && parents[i].Some? ==> VoteOf(u, c, parents[i].value).Ok?
    ensures Tally(u, c, parents, bound).Ok?
    decreases |parents|
  {
    if parents != [] {
      var init := parents[..|parents| - 1];
      assert forall i :: 0 <= i < |init| ==> init[i] == parents[i];
      TallyAllOk(u, c, init, bound);
    }
  }

  /** A scan of a list that finishes let every vote of the list through. */
  lemma {:induction false} ScanListVisitsAll(u: Units, c: Candidate, voters: seq<Hash>)
    requires WellFormed(u) && forall h :: h in voters ==> h in u.units
    requires ScanList(u, c, voters).Ok?
    ensures forall i :: 0 <= i < |voters| ==> VoteOf(u, c, voters[i]).Ok?
  {
    if voters != [] {
      ScanListVisitsAll(u, c, voters[1..]);
      assert forall i :: 0 < i < |voters| ==> voters[i] == voters[1..][i - 1];
    }
  }

  /**
   * Replayed round by round, the count of a voter's parents always finishes:
   * the parents above the candidate were replayed before, and the ones not
   * above it vote false. So a replay that stops is stopped by a voter's own
   * decision, taken from a completed count of its parents.
   */
  lemma {:induction false} ReplayStopsOnOwnDecision(u: Units, c: Candidate, r: Round)
    requires WellFormed(u) && c.round < r
    requires forall h :: h in u.units && c.round < u.units[h].round < r ==> VoteOf(u, c, h).Ok?
    requires ScanRounds(u, c, r).Err?
    ensures exists h :: h in u.units && r <= u.units[h].round <= u.highest && c.round + 2 <= u.units[h].round &&
              VoteOf(u, c, h) == Err(ScanRounds(u, c, r).error) &&
              Tally(u, c, u.units[h].parents, u.units[h].round).Ok?
    decreases u.highest + 1 - r
  {
    RoundsPresent(u, r);
    var voters := u.byRound[r];
    if ScanList(u, c, voters).Err? {
      ScanListBlames(u, c, voters);
      var i :| 0 <= i < |voters| && VoteOf(u, c, voters[i]) == Err(ScanList(u, c, voters).error);
      var h := voters[i];
      var parents := u.units[h].parents;
      DirectVote(u, c, h);
      assert ParentsBelow(u, parents, r);
      forall j | 0 <= j < |parents| && parents[j].Some?
        ensures VoteOf(u, c, parents[j].value).Ok?
      {
        DirectVote(u, c, parents[j].value);
      }
      TallyAllOk(u, c, parents, r);
    } else {
      ScanListVisitsAll(u, c, voters);
      forall h | h in u.units && c.round < u.units[h].round < r + 1
        ensures VoteOf(u, c, h).Ok?
      {
        if u.units[h].round == r {
          assert h in voters;
        }
      }
      ReplayStopsOnOwnDecision(u, c, r + 1);
    }
  }

  /**
   * The replay of `compute_votes` stops only on a voter's own decision: the
   * count of that voter's parents went through.
   */
  lemma ComputeVotesStopsOnOwnDecision(u: Units, c: Candidate)
    requires WellFormed(u)
    requires ScanRounds(u, c, c.round + 1).Err?
    ensures exists h :: h in u.units && c.round + 2 <= u.units[h].round <= u.highest &&
              VoteOf(u, c, h) == Err(ScanRounds(u, c, c.round + 1).error) &&
              Tally(u, c, u.units[h].parents, u.units[h].round).Ok?
  {
    ReplayStopsOnOwnDecision(u, c, c.round + 1);
  }
}

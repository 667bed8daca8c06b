/**
 What a vote decides and when a proposal expires, told by counts and by the blocks of the events: the
 quorum as an inequality instead of a rounded quotient, the outcome of every vote, and expiry over runs.
 */
module GovernanceEffects {
  import opened Wrappers
  import opened Arithmetic
  import opened Governance
  import opened GovernanceRuns

  // ---------- The quorum ----------

  /** `votes` out of `total` are at least the configured share. */
  predicate Suffice(c: Config, votes: nat, total: nat) {
    Product(votes, c.denominator) >= Product(total, c.numerator)
  }

  /** The quorum is the least number of votes that is at least the share: nothing is lost by rounding. */
  lemma QuorumExactly(c: Config, total: nat, votes: nat)
    requires c.denominator > 0
    ensures Suffice(c, votes, total) <==> votes >= Threshold(c, total)
  {
    var d := c.denominator;
    var x := total * c.numerator + d - 1;
    var q := x / d;
    assert x == q * d + x % d;
    if votes >= q {
      assert (votes - q) * d >= 0;
      assert votes * d == q * d + (votes - q) * d;
    } else {
      AtLeastOnce(q - votes, d);
      assert q * d == votes * d + (q - votes) * d;
    }
  }

  // ---------- Votes ----------

  /** Who may vote on what. */
  predicate MayVote(s: State, id: ProposalId, voter: Address) {
    && voter in s.validators && id in s.proposals && s.proposals[id].phase == Pending
    && voter !in s.proposals[id].votesFor && voter !in s.proposals[id].votesAgainst
  }

  /** The votes after this one. */
  function For(s: State, id: ProposalId, voter: Address, approve: bool): seq<Address>
    requires id in s.proposals
  {
    s.proposals[id].votesFor + if approve then [voter] else []
  }

  function Against(s: State, id: ProposalId, voter: Address, approve: bool): seq<Address>
    requires id in s.proposals
  {
    s.proposals[id].votesAgainst + if approve then [] else [voter]
  }

  /** The validators after a change: exactly one address comes or goes. */
  ghost predicate SetMoves(before: seq<Address>, after: seq<Address>, kind: Kind, target: Address) {
    forall v :: v in after <==> (v in before && !(kind.Remove? && v == target)) || (kind.Add? && v == target)
  }

  function Announced(kind: Kind, target: Address): VResult {
    if kind.Add? then ValidatorAdded(target) else ValidatorRemoved(target)
  }

  lemma DecidedBy(c: Config, s: State, id: ProposalId, block: nat)
    requires c.denominator > 0 && id in s.proposals && s.proposals[id].phase == Pending
    ensures var (t, r) := CheckAndExecute(c, s, id, block); var p := s.proposals[id];
      var yes := Suffice(c, |p.votesFor|, |s.validators|);
      var no := Suffice(c, |p.votesAgainst|, |s.validators|);
      && t.proposals == s.proposals[id := p.(phase := if yes then Executed else if no then Rejected else Pending)]
      && t.nextId == s.nextId
      && r == (if yes then Announced(p.kind, p.target) else if no then ProposalRejected(id)
               else VoteRecorded(id, |p.votesFor|, |p.votesAgainst|))
      && (yes ==> SetMoves(s.validators, t.validators, p.kind, p.target)
                  && t.history == s.history + [Change(block, p.kind, p.target)])
      && (!yes ==> t.validators == s.validators && t.history == s.history)
  {
    QuorumExactly(c, |s.validators|, |s.proposals[id].votesFor|);
    QuorumExactly(c, |s.validators|, |s.proposals[id].votesAgainst|);
    assert s.proposals == s.proposals[id := s.proposals[id].(phase := Pending)];
  }

  /**
   A vote counts exactly if a validator casts it for the first time on a pending proposal, at whatever
   block. It executes the proposal when the votes for suffice, and else rejects it when the votes against
   do; one that is refused changes nothing.
   */
  lemma VoteExactly(c: Config, s: State, id: ProposalId, voter: Address, approve: bool, block: nat)
    requires c.denominator > 0
    ensures var (t, r) := Vote(c, s, id, voter, approve, block);
      && (!MayVote(s, id, voter) ==> r.Failed? && t == s)
      && (MayVote(s, id, voter) ==>
            var p := s.proposals[id];
            var yes := Suffice(c, |For(s, id, voter, approve)|, |s.validators|);
            var no := Suffice(c, |Against(s, id, voter, approve)|, |s.validators|);
            && r == (if yes then Announced(p.kind, p.target) else if no then ProposalRejected(id)
                     else VoteRecorded(id, |For(s, id, voter, approve)|, |Against(s, id, voter, approve)|))
            && t.proposals == s.proposals[id := p.(votesFor := For(s, id, voter, approve),
                                                   votesAgainst := Against(s, id, voter, approve),
                                                   phase := if yes then Executed else if no then Rejected else Pending)]
            && (yes ==> SetMoves(s.validators, t.validators, p.kind, p.target)
                        && t.history == s.history + [Change(block, p.kind, p.target)])
            && (!yes ==> t.validators == s.validators && t.history == s.history))
  {
    if MayVote(s, id, voter) {
      var p := s.proposals[id];
      var voted := p.(votesFor := For(s, id, voter, approve), votesAgainst := Against(s, id, voter, approve));
      VotedIs(s, id, voter, approve, voted);
      DecidedBy(c, s.(proposals := s.proposals[id := voted]), id, block);
    }
  }

  lemma VotedIs(s: State, id: ProposalId, voter: Address, approve: bool, voted: Proposal)
    requires id in s.proposals
    requires voted ==
      s.proposals[id].(votesFor := For(s, id, voter, approve), votesAgainst := Against(s, id, voter, approve))
    ensures Voted(s.proposals[id], voter, approve) == voted
  {
    assert s.proposals[id].votesFor + [] == s.proposals[id].votesFor;
    assert s.proposals[id].votesAgainst + [] == s.proposals[id].votesAgainst;
  }

  // ---------- Proposals ----------

  /** A validator may propose to add someone new while there is room, or to remove a member while enough stay. */
  predicate MayPropose(c: Config, s: State, proposer: Address, kind: Kind, target: Address) {
    && proposer in s.validators
    && (if kind.Add? then target !in s.validators && |s.validators| < c.max
        else target in s.validators && |s.validators| > c.min)
  }

  /** A new proposal has its proposer's vote and its deadline, and is executed at once if one vote suffices. */
  lemma ProposedExactly(c: Config, s: State, proposer: Address, kind: Kind, target: Address, block: nat)
    requires c.denominator > 0
    ensures var (t, r) := Propose(c, s, proposer, kind, target, block);
      var yes := Suffice(c, 1, |s.validators|);
      && (!MayPropose(c, s, proposer, kind, target) ==> r.Failed? && t == s)
      && (MayPropose(c, s, proposer, kind, target) ==>
            && r == (if yes then Announced(kind, target) else ProposalCreated(s.nextId)) && t.nextId == s.nextId + 1
            && t.proposals == s.proposals[s.nextId := Proposal(s.nextId, kind, target, proposer, [proposer], [], block,
                                                               block + c.ttl, if yes then Executed else Pending)]
            && (yes ==> SetMoves(s.validators, t.validators, kind, target)
                        && t.history == s.history + [Change(block, kind, target)])
            && (!yes ==> t.validators == s.validators && t.history == s.history))
  {
    if MayPropose(c, s, proposer, kind, target) {
      var p := Proposal(s.nextId, kind, target, proposer, [proposer], [], block, block + c.ttl, Pending);
      var u := s.(nextId := s.nextId + 1, proposals := s.proposals[s.nextId := p]);
      QuorumExactly(c, |s.validators|, 1);
      if Suffice(c, 1, |s.validators|) {
        DecidedBy(c, u, s.nextId, block);
      }
    }
  }

  /** The reasons for refusing, each only if none before it applies. */
  lemma RefusedFor(c: Config, s: State, id: ProposalId, voter: Address, approve: bool, proposer: Address,
                   target: Address, block: nat)
    requires c.denominator > 0
    ensures var r := Vote(c, s, id, voter, approve, block).1;
      && (r == Failed(VoterNotValidator) <==> voter !in s.validators)
      && (r == Failed(ProposalNotFound) <==> voter in s.validators && id !in s.proposals)
      && (r == Failed(ProposalNotPending) <==>
            voter in s.validators && id in s.proposals && s.proposals[id].phase != Pending)
    ensures var r := Propose(c, s, proposer, Add, target, block).1;
      && (r == Failed(NotValidator) <==> proposer !in s.validators)
      && (r == Failed(AlreadyValidator) <==> proposer in s.validators && target in s.validators)
      && (r == Failed(CannotRemoveLast) <==>
            proposer in s.validators && target !in s.validators && |s.validators| >= c.max)
    ensures var r := Propose(c, s, proposer, Remove, target, block).1;
      && (r == Failed(NotInSet) <==> proposer in s.validators && target !in s.validators)
      && (r == Failed(CannotRemoveLast) <==>
            proposer in s.validators && target in s.validators && |s.validators| <= c.min)
  {}

  // ---------- Expiry ----------

  /** Expiry ends exactly the pending proposals that have reached their deadline. */
  lemma ExpiryExactly(c: Config, s: State, block: nat)
    requires c.denominator > 0
    ensures var t := Step(c, s, Expiring(block));
      && t == s.(proposals := t.proposals) && t.proposals.Keys == s.proposals.Keys
      && forall id :: id in s.proposals ==>
           t.proposals[id] == if s.proposals[id].phase == Pending && s.proposals[id].expiresAt <= block
                              then s.proposals[id].(phase := Expired) else s.proposals[id]
  {}

  lemma OpenStep(c: Config, s: State, e: Event, id: ProposalId, deadline: nat)
    requires c.denominator > 0 && id in s.proposals && id < s.nextId && s.proposals[id].expiresAt == deadline
    ensures var t := Step(c, s, e);
      && id in t.proposals && id < t.nextId && t.proposals[id].expiresAt == deadline
      && (t.proposals[id].phase == Expired && s.proposals[id].phase != Expired ==> e.Expiring? && e.block >= deadline)
  {}

  lemma {:induction false} StaysOpen(c: Config, s: State, es: seq<Event>, id: ProposalId, deadline: nat)
    requires c.denominator > 0 && id in s.proposals && id < s.nextId && s.proposals[id].expiresAt == deadline
    ensures var t := Run(c, s, es);
      && id in t.proposals && t.proposals[id].expiresAt == deadline
      && (s.proposals[id].phase != Expired
          && (forall i :: 0 <= i < |es| && es[i].Expiring? ==> es[i].block < deadline) ==>
            t.proposals[id].phase != Expired)
    decreases |es|
  {
    if es != [] {
      OpenStep(c, s, es[0], id, deadline);
      StaysOpen(c, Step(c, s, es[0]), es[1..], id, deadline);
      assert forall i :: 0 <= i < |es[1..]| ==> es[1..][i] == es[i + 1];
    }
  }

  /**
   A proposal made at `block` is there on every run that follows and is not expired before an expiry at
   `block` plus its time to live; the first such expiry ends it exactly if it is still pending.
   */
  lemma {:induction false} ExpiresAtDeadline(c: Config, s: State, proposer: Address, kind: Kind, target: Address,
                                             block: nat, es: seq<Event>, late: nat)
    requires c.denominator > 0 && MayPropose(c, s, proposer, kind, target)
    requires forall i :: 0 <= i < |es| && es[i].Expiring? ==> es[i].block < block + c.ttl
    requires late >= block + c.ttl
    ensures var t := Run(c, Step(c, s, Proposing(proposer, kind, target, block)), es);
      var u := Step(c, t, Expiring(late));
      && s.nextId in t.proposals && t.proposals[s.nextId].phase != Expired
      && (u.proposals[s.nextId].phase == Expired <==> t.proposals[s.nextId].phase == Pending)
      && (t.proposals[s.nextId].phase != Pending ==> u.proposals[s.nextId] == t.proposals[s.nextId])
  {
    ProposedExactly(c, s, proposer, kind, target, block);
    var one := Step(c, s, Proposing(proposer, kind, target, block));
    StaysOpen(c, one, es, s.nextId, block + c.ttl);
    ExpiryExactly(c, Run(c, one, es), late);
  }
}

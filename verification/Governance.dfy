/** Validator governance: proposals, votes, quorum and execution of changes to the validator set. */
module Governance {
  import opened Wrappers
  import opened OrderedKeys

  type Address = nat
  type ProposalId = nat

  datatype Kind = Add | Remove

  datatype Phase = Pending | Approved | Rejected | Executed | Expired

  datatype Proposal = Proposal(id: ProposalId, kind: Kind, target: Address, proposer: Address,
                               votesFor: seq<Address>, votesAgainst: seq<Address>,
                               proposedAt: nat, expiresAt: nat, phase: Phase)

  datatype VError =
    NotValidator | AlreadyValidator | NotInSet | CannotRemoveLast | AlreadyVoted |
    ProposalNotFound | ProposalNotPending | VoterNotValidator

  datatype VResult =
    | ProposalCreated(id: ProposalId)
    | VoteRecorded(id: ProposalId, votesFor: nat, votesAgainst: nat)
    | ProposalRejected(id: ProposalId)
    | ValidatorAdded(address: Address)
    | ValidatorRemoved(address: Address)
    | ProposalExpired(id: ProposalId)
    | Failed(error: VError)

  datatype Config = Config(ttl: nat, numerator: nat, denominator: nat, min: nat, max: nat)

  datatype Change = Change(block: nat, kind: Kind, address: Address)

  datatype State = State(validators: seq<Address>, proposals: map<ProposalId, Proposal>, nextId: ProposalId,
                         history: seq<Change>)

  function Init(validators: seq<Address>): State {
    State(validators, map[], 1, [])
  }

  /** `ceil(total * numerator / denominator)`; a zero denominator panics in the node. */
  function Threshold(c: Config, total: nat): nat
    requires c.denominator > 0
  {
    (total * c.numerator + c.denominator - 1) / c.denominator
  }

  /** `retain(|v| v != target)` */
  function Without(vs: seq<Address>, target: Address): (r: seq<Address>)
    ensures forall v :: v in r <==> v in vs && v != target
  {
    if vs == [] then []
    else if vs[0] == target then Without(vs[1..], target)
    else
      assert vs == [vs[0]] + vs[1..];
      [vs[0]] + Without(vs[1..], target)
  }

  function Changed(vs: seq<Address>, kind: Kind, target: Address): seq<Address> {
    if kind.Add? then vs + [target] else Without(vs, target)
  }

  function WithPhase(s: State, id: ProposalId, phase: Phase): State
    requires id in s.proposals
  {
    s.(proposals := s.proposals[id := s.proposals[id].(phase := phase)])
  }

  function CheckAndExecute(c: Config, s: State, id: ProposalId, block: nat): (State, VResult)
    requires c.denominator > 0 && id in s.proposals
  {
    var quorum := Threshold(c, |s.validators|);
    var p := s.proposals[id];
    if |p.votesFor| >= quorum then
      var t := WithPhase(s, id, Executed);
      (t.(validators := Changed(s.validators, p.kind, p.target),
          history := s.history + [Change(block, p.kind, p.target)]),
       if p.kind.Add? then ValidatorAdded(p.target) else ValidatorRemoved(p.target))
    else if |p.votesAgainst| >= quorum then
      (WithPhase(s, id, Rejected), ProposalRejected(id))
    else
      (s, VoteRecorded(id, |p.votesFor|, |p.votesAgainst|))
  }

  function ProposalError(c: Config, s: State, proposer: Address, kind: Kind, target: Address): Option<VError> {
    if proposer !in s.validators then Some(NotValidator)
    else if kind.Add? && target in s.validators then Some(AlreadyValidator)
    else if kind.Add? && |s.validators| >= c.max then Some(CannotRemoveLast)
    else if kind.Remove? && target !in s.validators then Some(NotInSet)
    else if kind.Remove? && |s.validators| <= c.min then Some(CannotRemoveLast)
    else None
  }

  function NewProposal(c: Config, id: ProposalId, proposer: Address, kind: Kind, target: Address,
      block: nat): Proposal {
    Proposal(id, kind, target, proposer, [proposer], [], block, block + c.ttl, Pending)
  }

  function Propose(c: Config, s: State, proposer: Address, kind: Kind, target: Address, block: nat): (State, VResult)
    requires c.denominator > 0
  {
    var error := ProposalError(c, s, proposer, kind, target);
    if error.Some? then
      (s, Failed(error.value))
    else
      var id := s.nextId;
      var t := s.(nextId := id + 1, proposals := s.proposals[id := NewProposal(c, id, proposer, kind, target, block)]);
      if Threshold(c, |s.validators|) <= 1 then CheckAndExecute(c, t, id, block) else (t, ProposalCreated(id))
  }

  function Voted(p: Proposal, voter: Address, approve: bool): Proposal {
    if approve then p.(votesFor := p.votesFor + [voter]) else p.(votesAgainst := p.votesAgainst + [voter])
  }

  function VoteError(s: State, id: ProposalId, voter: Address): Option<VError> {
    if voter !in s.validators then Some(VoterNotValidator)
    else if id !in s.proposals then Some(ProposalNotFound)
    else if !s.proposals[id].phase.Pending? then Some(ProposalNotPending)
    else if voter in s.proposals[id].votesFor || voter in s.proposals[id].votesAgainst then Some(AlreadyVoted)
    else None
  }

  function Vote(c: Config, s: State, id: ProposalId, voter: Address, approve: bool, block: nat): (State, VResult)
    requires c.denominator > 0
  {
    var error := VoteError(s, id, voter);
    if error.Some? then
      (s, Failed(error.value))
    else
      CheckAndExecute(c, s.(proposals := s.proposals[id := Voted(s.proposals[id], voter, approve)]), id, block)
  }

  predicate IsExpired(p: Proposal, block: nat) {
    p.phase.Pending? && block >= p.expiresAt
  }

  function Expire(s: State, block: nat): State {
    s.(proposals := map id | id in s.proposals ::
         if IsExpired(s.proposals[id], block) then s.proposals[id].(phase := Expired) else s.proposals[id])
  }

  /** Round robin over the current validators. */
  function ProposerForHeight(validators: seq<Address>, height: nat): Option<Address> {
    if validators == [] then None else Some(validators[height % |validators|])
  }

  // ---------- The manager ----------

  class ValidatorManager {
    const config: Config
    var validators: seq<Address>
    var proposals: map<ProposalId, Proposal>
    var nextId: ProposalId
    var history: seq<Change>

    function View(): State
      reads this
    {
      State(validators, proposals, nextId, history)
    }

    constructor (initial: seq<Address>, cfg: Config)
      ensures View() == Init(initial) && config == cfg
    {
      config := cfg;
      validators, proposals, nextId, history := initial, map[], 1, [];
    }

    method ProposeChange(proposer: Address, kind: Kind, target: Address, block: nat) returns (r: VResult)
      requires config.denominator > 0
      modifies this
      ensures View() == Propose(config, old(View()), proposer, kind, target, block).0
      ensures r == Propose(config, old(View()), proposer, kind, target, block).1
    {
      if proposer !in validators {
        return Failed(NotValidator);
      }
      match kind {
        case Add =>
          if target in validators {
            return Failed(AlreadyValidator);
          }
          if |validators| >= config.max {
            return Failed(CannotRemoveLast);
          }
        case Remove =>
          if target !in validators {
            return Failed(NotInSet);
          }
          if |validators| <= config.min {
            return Failed(CannotRemoveLast);
          }
      }
      var id := nextId;
      nextId := nextId + 1;
      proposals := proposals[id :=
          Proposal(id, kind, target, proposer, [proposer], [], block, block + config.ttl, Pending)];
      if Threshold(config, |validators|) <= 1 {
        r := ExecuteIfQuorum(id, block);
      } else {
        r := ProposalCreated(id);
      }
    }

    method CastVote(id: ProposalId, voter: Address, approve: bool, block: nat) returns (r: VResult)
      requires config.denominator > 0
      modifies this
      ensures View() == Vote(config, old(View()), id, voter, approve, block).0
      ensures r == Vote(config, old(View()), id, voter, approve, block).1
    {
      if voter !in validators {
        return Failed(VoterNotValidator);
      }
      if id !in proposals {
        return Failed(ProposalNotFound);
      }
      var proposal := proposals[id];
      if proposal.phase != Pending {
        return Failed(ProposalNotPending);
      }
      if voter in proposal.votesFor || voter in proposal.votesAgainst {
        return Failed(AlreadyVoted);
      }
      if approve {
        proposal := proposal.(votesFor := proposal.votesFor + [voter]);
      } else {
        proposal := proposal.(votesAgainst := proposal.votesAgainst + [voter]);
      }
      proposals := proposals[id := proposal];
      r := ExecuteIfQuorum(id, block);
    }

    method ExecuteIfQuorum(id: ProposalId, block: nat) returns (r: VResult)
      requires config.denominator > 0 && id in proposals
      modifies this
      ensures View() == CheckAndExecute(config, old(View()), id, block).0
      ensures r == CheckAndExecute(config, old(View()), id, block).1
    {
      var quorum := Threshold(config, |validators|);
      var p := proposals[id];
      if |p.votesFor| >= quorum {
        proposals := proposals[id := p.(phase := Approved)];
        match p.kind {
          case Add =>
            validators := validators + [p.target];
            history := history + [Change(block, Add, p.target)];
            r := ValidatorAdded(p.target);
          case Remove =>
            validators := Without(validators, p.target);
            history := history + [Change(block, Remove, p.target)];
            r := ValidatorRemoved(p.target);
        }
        proposals := proposals[id := p.(phase := Executed)];
        assert proposals == old(proposals)[id := p.(phase := Executed)];
      } else if |p.votesAgainst| >= quorum {
        proposals := proposals[id := p.(phase := Rejected)];
        r := ProposalRejected(id);
      } else {
        r := VoteRecorded(id, |p.votesFor|, |p.votesAgainst|);
      }
    }

    /** The expired ids come out in the order in which the hash map is walked. */
    method ExpireProposals(block: nat) returns (ids: seq<ProposalId>)
      modifies this`proposals
      ensures View() == Expire(old(View()), block)
      ensures IsOrder(ids, set id | id in old(proposals) && IsExpired(old(proposals)[id], block))
    {
      proposals, ids := ExpireAll(proposals, block);
    }
  }

  method ExpireAll(proposals0: map<ProposalId, Proposal>, block: nat)
    returns (proposals: map<ProposalId, Proposal>, ids: seq<ProposalId>)
    ensures proposals == Expire(State([], proposals0, 0, []), block).proposals
    ensures IsOrder(ids, set id | id in proposals0 && IsExpired(proposals0[id], block))
  {
    proposals, ids := proposals0, [];
    var todo := proposals0.Keys;
    while todo != {}
      invariant todo <= proposals0.Keys && proposals.Keys == proposals0.Keys
      invariant forall id :: id in proposals0 ==>
        proposals[id] == if id !in todo && IsExpired(proposals0[id], block) then proposals0[id].(phase := Expired)
            else proposals0[id]
      invariant Distinct(ids)
      invariant forall id :: id in ids <==> id in proposals0 && id !in todo && IsExpired(proposals0[id], block)
      decreases todo
    {
      var id :| id in todo;
      todo := todo - {id};
      if proposals[id].phase == Pending && block >= proposals[id].expiresAt {
        proposals := proposals[id := proposals[id].(phase := Expired)];
        ids := ids + [id];
      }
    }
  }
}

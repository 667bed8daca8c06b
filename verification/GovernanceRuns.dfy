/** What every run of the validator governance keeps. */
module GovernanceRuns {
  import opened Wrappers
  import opened OrderedKeys
  import opened Arithmetic
  import opened Governance

  datatype Event =
    | Proposing(proposer: Address, kind: Kind, target: Address, block: nat)
    | Voting(id: ProposalId, voter: Address, approve: bool, block: nat)
    | Expiring(block: nat)

  function Step(c: Config, s: State, e: Event): State
    requires c.denominator > 0
  {
    match e
    case Proposing(p, k, t, b) => Propose(c, s, p, k, t, b).0
    case Voting(id, v, a, b) => Vote(c, s, id, v, a, b).0
    case Expiring(b) => Expire(s, b)
  }

  function Run(c: Config, s: State, es: seq<Event>): State
    requires c.denominator > 0
    decreases |es|
  {
    if es == [] then s else Run(c, Step(c, s, es[0]), es[1..])
  }

  // ---------- The history replays to the current set ----------

  /** Apply recorded changes, oldest first, to a validator list. */
  function Replay(vs: seq<Address>, history: seq<Change>): seq<Address>
    decreases |history|
  {
    if history == [] then vs else Replay(Changed(vs, history[0].kind, history[0].address), history[1..])
  }

  lemma {:induction false} ReplayAppend(vs: seq<Address>, history: seq<Change>, last: Change)
    ensures Replay(vs, history + [last]) == Changed(Replay(vs, history), last.kind, last.address)
    decreases |history|
  {
    if history == [] {
      assert ([] + [last])[1..] == [];
    } else {
      assert (history + [last])[1..] == history[1..] + [last];
      ReplayAppend(Changed(vs, history[0].kind, history[0].address), history[1..], last);
    }
  }

  function ExecutedIds(s: State): set<ProposalId> {
    set id | id in s.proposals && s.proposals[id].phase.Executed?
  }

  /** The votes of a proposal: no voter appears twice, on either side. */
  ghost predicate VotesDistinct(p: Proposal) {
    Distinct(p.votesFor + p.votesAgainst)
  }

  ghost predicate Consistent(s: State, initial: seq<Address>) {
    && s.validators == Replay(initial, s.history)
    && |s.history| == |ExecutedIds(s)|
    && forall id :: id in s.proposals ==>
         var p := s.proposals[id];
         id < s.nextId && p.id == id && !p.phase.Approved? && VotesDistinct(p)
  }

  lemma ExecuteKeepsConsistent(c: Config, s: State, initial: seq<Address>, id: ProposalId, block: nat)
    requires c.denominator > 0 && Consistent(s, initial) && id in s.proposals && s.proposals[id].phase.Pending?
    ensures Consistent(CheckAndExecute(c, s, id, block).0, initial)
  {
    var t := CheckAndExecute(c, s, id, block).0;
    var p := s.proposals[id];
    if |p.votesFor| >= Threshold(c, |s.validators|) {
      ReplayAppend(initial, s.history, Change(block, p.kind, p.target));
      assert ExecutedIds(t) == ExecutedIds(s) + {id};
    } else {
      assert ExecutedIds(t) == ExecutedIds(s);
    }
  }

  lemma StepKeepsConsistent(c: Config, s: State, initial: seq<Address>, e: Event)
    requires c.denominator > 0 && Consistent(s, initial)
    ensures Consistent(Step(c, s, e), initial)
  {
    match e
    case Proposing(proposer, kind, target, block) =>
      if ProposalError(c, s, proposer, kind, target).None? {
        var t := s.(nextId := s.nextId + 1,
            proposals := s.proposals[s.nextId := NewProposal(c, s.nextId, proposer, kind, target, block)]);
        assert ExecutedIds(t) == ExecutedIds(s);
        assert Consistent(t, initial);
        ExecuteKeepsConsistent(c, t, initial, s.nextId, block);
      }
    case Voting(id, voter, approve, block) =>
      if VoteError(s, id, voter).None? {
        var t := s.(proposals := s.proposals[id := Voted(s.proposals[id], voter, approve)]);
        assert ExecutedIds(t) == ExecutedIds(s);
        VotedDistinct(s.proposals[id], voter, approve);
        assert Consistent(t, initial);
        ExecuteKeepsConsistent(c, t, initial, id, block);
      }
    case Expiring(block) =>
      assert ExecutedIds(Expire(s, block)) == ExecutedIds(s);
  }

  lemma VotedDistinct(p: Proposal, voter: Address, approve: bool)
    requires VotesDistinct(p) && voter !in p.votesFor && voter !in p.votesAgainst
    ensures VotesDistinct(Voted(p, voter, approve))
  {
    var all := p.votesFor + p.votesAgainst;
    var q := Voted(p, voter, approve);
    var votes := q.votesFor + q.votesAgainst;
    forall i, j | 0 <= i < j < |votes|
      ensures votes[i] != votes[j]
    {
      var n := |p.votesFor|;
      if approve {
        if i != n && j != n {
          assert all[if i < n then i else i - 1] != all[if j < n then j else j - 1];
        }
      } else if j < |all| {
        assert all[i] != all[j];
      }
    }
  }

  /**
   On every run, overlapping proposals included: the validators are the replay of the history, the
   history has one entry per executed proposal, `Approved` is never visible, and votes are distinct.
   */
  lemma {:induction false} RunKeepsConsistent(c: Config, s: State, initial: seq<Address>, es: seq<Event>)
    requires c.denominator > 0 && Consistent(s, initial)
    ensures Consistent(Run(c, s, es), initial)
    decreases |es|
  {
    if es != [] {
      StepKeepsConsistent(c, s, initial, es[0]);
      RunKeepsConsistent(c, Step(c, s, es[0]), initial, es[1..]);
    }
  }

  lemma {:induction false} HistoryReplays(c: Config, initial: seq<Address>, es: seq<Event>)
    requires c.denominator > 0
    ensures var s := Run(c, Init(initial), es);
            s.validators == Replay(initial, s.history) && |s.history| == |ExecutedIds(s)|
  {
    assert ExecutedIds(Init(initial)) == {};
    RunKeepsConsistent(c, Init(initial), initial, es);
  }

  /** A proposal that has left `Pending` never changes again: neither its phase nor its votes. */
  lemma {:induction false} DecidedStaysDecided(c: Config, s: State, initial: seq<Address>, es: seq<Event>,
      id: ProposalId)
    requires c.denominator > 0 && Consistent(s, initial)
    requires id in s.proposals && !s.proposals[id].phase.Pending?
    ensures var t := Run(c, s, es);
            id in t.proposals && t.proposals[id] == s.proposals[id]
    decreases |es|
  {
    if es != [] {
      var t := Step(c, s, es[0]);
      StepKeepsConsistent(c, s, initial, es[0]);
      assert id in t.proposals && t.proposals[id] == s.proposals[id];
      DecidedStaysDecided(c, t, initial, es[1..], id);
    }
  }

  // ---------- Quorum arithmetic ----------

  /** With a quorum of more than one half, two quorums together outnumber the validators. */
  lemma TwoQuorumsOverlap(c: Config, total: nat)
    requires c.denominator > 0 && 2 * c.numerator > c.denominator && total > 0
    ensures 2 * Threshold(c, total) > total
  {
    var d := c.denominator;
    var x := total * c.numerator + d - 1;
    var q := Threshold(c, total);
    assert x == q * d + x % d;
    assert q * d >= total * c.numerator;
    AtLeastOnce(2 * c.numerator - d, total);
    assert (2 * c.numerator - d) * total == 2 * (total * c.numerator) - total * d;
    assert (total - 2 * q) * d == total * d - 2 * (q * d);
    AtLeastOnce(total - 2 * q, d);
  }

  lemma ManyVoters(votes: seq<Address>, validators: seq<Address>)
    requires Distinct(votes) && forall v :: v in votes ==> v in validators
    ensures |votes| <= |validators|
  {
    SetOfSize(votes);
    SetOfSize(validators);
    SubsetSize(SetOf(votes), SetOf(validators));
  }

  /** Any two quorums of distinct validators share a validator. */
  lemma QuorumsShareAValidator(c: Config, validators: seq<Address>, a: seq<Address>, b: seq<Address>)
    requires c.denominator > 0 && 2 * c.numerator > c.denominator && validators != []
    requires Distinct(a) && Distinct(b)
    requires (forall v :: v in a ==> v in validators) && (forall v :: v in b ==> v in validators)
    requires |a| >= Threshold(c, |validators|) && |b| >= Threshold(c, |validators|)
    ensures exists v :: v in a && v in b
  {
    TwoQuorumsOverlap(c, |validators|);
    if forall v :: v in a ==> v !in b {
      AppendDistinct(a, b);
      ManyVoters(a + b, validators);
    }
  }

  /** Approval and rejection of one proposal cannot both reach quorum while its voters are validators. */
  lemma NeverBothQuorums(c: Config, validators: seq<Address>, p: Proposal)
    requires c.denominator > 0 && 2 * c.numerator > c.denominator && validators != []
    requires VotesDistinct(p) && forall v :: v in p.votesFor + p.votesAgainst ==> v in validators
    ensures !(|p.votesFor| >= Threshold(c, |validators|) && |p.votesAgainst| >= Threshold(c, |validators|))
  {
    TwoQuorumsOverlap(c, |validators|);
    ManyVoters(p.votesFor + p.votesAgainst, validators);
  }

  // ---------- One pending proposal at a time ----------

  ghost predicate OnePending(s: State) {
    forall i, j ::
      i in s.proposals && j in s.proposals && s.proposals[i].phase.Pending? && s.proposals[j].phase.Pending? ==> i == j
  }

  ghost predicate SetInBounds(c: Config, vs: seq<Address>) {
    Distinct(vs) && c.min <= |vs| <= c.max
  }

  /** The change can still be made: nothing happened to the set since the proposal was checked. */
  predicate StillValid(c: Config, vs: seq<Address>, kind: Kind, target: Address) {
    if kind.Add? then target !in vs && |vs| < c.max else target in vs && |vs| > c.min
  }

  lemma {:induction false} WithoutDistinct(vs: seq<Address>, target: Address)
    requires Distinct(vs)
    ensures Distinct(Without(vs, target))
    ensures |Without(vs, target)| == |vs| - if target in vs then 1 else 0
    decreases |vs|
  {
    if vs != [] {
      assert vs == [vs[0]] + vs[1..];
      assert vs[0] !in vs[1..];
      WithoutDistinct(vs[1..], target);
    }
  }

  /**
   Executing a change does not recheck it. From a distinct set within its bounds the set stays so exactly
   when the change is still valid, or when it removes a validator that is no longer there.
   */
  lemma ExecutionSafeExactly(c: Config, vs: seq<Address>, kind: Kind, target: Address)
    requires SetInBounds(c, vs)
    ensures SetInBounds(c, Changed(vs, kind, target)) <==>
            StillValid(c, vs, kind, target) || (kind.Remove? && target !in vs)
  {
    if kind.Add? {
      var r := Changed(vs, kind, target);
      assert r == vs + [target];
      if target in vs {
        var i :| 0 <= i < |vs| && vs[i] == target;
        assert r[i] == r[|vs|];
        assert !Distinct(r);
      } else {
        AppendDistinct(vs, [target]);
        assert Distinct(r);
      }
    } else {
      WithoutDistinct(vs, target);
    }
  }

  datatype Due = Due(kind: Kind, target: Address)

  /**
   The change that an event is going to execute, told from the state before it: an accepted proposal where
   one vote is a quorum, or an accepted vote on a proposal that then has a quorum in favour. A vote against
   can also complete one, if removals have meanwhile lowered the quorum.
   */
  function ToExecute(c: Config, s: State, e: Event): Option<Due>
    requires c.denominator > 0
  {
    var quorum := Threshold(c, |s.validators|);
    match e
    case Proposing(proposer, kind, target, _) =>
      if ProposalError(c, s, proposer, kind, target).None? && quorum <= 1 then Some(Due(kind, target)) else None
    case Voting(id, voter, approve, _) =>
      if VoteError(s, id, voter).None? && |s.proposals[id].votesFor| + (if approve then 1 else 0) >= quorum
      then Some(Due(s.proposals[id].kind, s.proposals[id].target)) else None
    case Expiring(_) => None
  }

  /** An event executes exactly that change, and records it. */
  lemma {:induction false} ExecutesExactly(c: Config, s: State, e: Event)
    requires c.denominator > 0
    ensures var t := Step(c, s, e); var p := ToExecute(c, s, e);
      && (p.None? ==> t.history == s.history && t.validators == s.validators)
      && (p.Some? ==> t.history == s.history + [Change(e.block, p.value.kind, p.value.target)]
                      && t.validators == Changed(s.validators, p.value.kind, p.value.target))
  {
    if e.Proposing? && ProposalError(c, s, e.proposer, e.kind, e.target).None? {
      var p := NewProposal(c, s.nextId, e.proposer, e.kind, e.target, e.block);
      ExecutesAtQuorum(c, s.(nextId := s.nextId + 1, proposals := s.proposals[s.nextId := p]), s.nextId, e.block);
    } else if e.Voting? && VoteError(s, e.id, e.voter).None? {
      var t := s.(proposals := s.proposals[e.id := Voted(s.proposals[e.id], e.voter, e.approve)]);
      ExecutesAtQuorum(c, t, e.id, e.block);
    }
  }

  lemma {:induction false} ExecutesAtQuorum(c: Config, s: State, id: ProposalId, block: nat)
    requires c.denominator > 0 && id in s.proposals
    ensures var t := CheckAndExecute(c, s, id, block).0; var p := s.proposals[id];
      if |p.votesFor| >= Threshold(c, |s.validators|)
      then t.history == s.history + [Change(block, p.kind, p.target)]
           && t.validators == Changed(s.validators, p.kind, p.target)
      else t.history == s.history && t.validators == s.validators
  {}

  /** What the event is going to execute can still be made, or removes nobody. */
  predicate SafeAt(c: Config, s: State, e: Event)
    requires c.denominator > 0
  {
    var p := ToExecute(c, s, e);
    p.Some? ==> StillValid(c, s.validators, p.value.kind, p.value.target)
                || (p.value.kind.Remove? && p.value.target !in s.validators)
  }

  ghost predicate SafeRun(c: Config, s: State, es: seq<Event>)
    requires c.denominator > 0
    decreases |es|
  {
    es == [] || (SafeAt(c, s, es[0]) && SafeRun(c, Step(c, s, es[0]), es[1..]))
  }

  ghost predicate AlwaysInBounds(c: Config, s: State, es: seq<Event>)
    requires c.denominator > 0
    decreases |es|
  {
    SetInBounds(c, s.validators) && (es == [] || AlwaysInBounds(c, Step(c, s, es[0]), es[1..]))
  }

  /**
   On a run the set stays distinct and within its bounds exactly when every executed change was safe in this sense.
   */
  lemma {:induction false} SafeRunExactly(c: Config, s: State, es: seq<Event>)
    requires c.denominator > 0 && SetInBounds(c, s.validators)
    ensures AlwaysInBounds(c, s, es) <==> SafeRun(c, s, es)
    decreases |es|
  {
    if es != [] {
      var t := Step(c, s, es[0]);
      var p := ToExecute(c, s, es[0]);
      ExecutesExactly(c, s, es[0]);
      if p.Some? {
        ExecutionSafeExactly(c, s.validators, p.value.kind, p.value.target);
      }
      if SetInBounds(c, t.validators) {
        SafeRunExactly(c, t, es[1..]);
      }
    }
  }

  /** A quorum of two thirds; five votes and proposals of four validators. */
  const TWO_THIRDS: Config := Config(1000, 2, 3, 1, 21)

  /** Two of four votes for adding 9 are not a quorum. Then validator 4 is removed, after which two are. */
  function Lowered(): seq<Event> {
    [Proposing(1, Add, 9, 0), Voting(1, 2, true, 1), Proposing(1, Remove, 4, 2), Voting(2, 2, true, 3),
     Voting(2, 3, true, 4)]
  }

  const HALF_ADDED: Proposal := Proposal(1, Add, 9, 1, [1, 2], [], 0, 1000, Pending)

  /** The addition has two votes, and the set is as it was. */
  ghost predicate HalfWay(s: State) {
    s.validators == [1, 2, 3, 4] && 1 in s.proposals && s.proposals[1] == HALF_ADDED
  }

  /** The removal of 4 is pending with these votes. */
  ghost predicate Removing(s: State, votes: seq<Address>) {
    HalfWay(s) && 2 in s.proposals && s.proposals[2] == Proposal(2, Remove, 4, 1, votes, [], 2, 1002, Pending)
  }

  lemma {:induction false} HalfAdded()
    ensures var s := Step(TWO_THIRDS, Step(TWO_THIRDS, Init([1, 2, 3, 4]), Proposing(1, Add, 9, 0)),
        Voting(1, 2, true, 1));
      HalfWay(s) && s.nextId == 2
  {
    assert Threshold(TWO_THIRDS, 4) == 3;
    var s1 := Step(TWO_THIRDS, Init([1, 2, 3, 4]), Proposing(1, Add, 9, 0));
    assert s1.proposals == map[1 := HALF_ADDED.(votesFor := [1])] && s1.nextId == 2;
    assert [1] + [2] == [1, 2];
  }

  lemma {:induction false} RemovalOpened(s: State)
    requires HalfWay(s) && s.nextId == 2
    ensures Removing(Step(TWO_THIRDS, s, Proposing(1, Remove, 4, 2)), [1])
  {
    assert Threshold(TWO_THIRDS, 4) == 3;
  }

  lemma {:induction false} RemovalSeconded(s: State)
    requires Removing(s, [1])
    ensures Removing(Step(TWO_THIRDS, s, Voting(2, 2, true, 3)), [1, 2])
  {
    assert Threshold(TWO_THIRDS, 4) == 3;
    assert [1] + [2] == [1, 2];
  }

  lemma {:induction false} FourthRemoved(s: State)
    requires Removing(s, [1, 2])
    ensures var t := Step(TWO_THIRDS, s, Voting(2, 3, true, 4));
      t.validators == [1, 2, 3] && 1 in t.proposals && t.proposals[1] == HALF_ADDED
  {
    assert Threshold(TWO_THIRDS, 4) == 3;
    WithoutLast([1, 2, 3], 4);
    assert [1, 2, 3] + [4] == [1, 2, 3, 4];
  }

  lemma {:induction false} WithoutLast(vs: seq<Address>, last: Address)
    requires last !in vs
    ensures Without(vs + [last], last) == vs
    decreases |vs|
  {
    if vs == [] {
      assert ([] + [last])[1..] == [];
    } else {
      assert (vs + [last])[1..] == vs[1..] + [last];
      WithoutLast(vs[1..], last);
    }
  }

  lemma {:induction false} FiveEvents(c: Config, s: State, e1: Event, e2: Event, e3: Event, e4: Event, e5: Event)
    requires c.denominator > 0
    ensures Run(c, s, [e1, e2, e3, e4, e5]) == Step(c, Step(c, Step(c, Step(c, Step(c, s, e1), e2), e3), e4), e5)
  {
    var s1 := Step(c, s, e1);
    var s2 := Step(c, s1, e2);
    var s3 := Step(c, s2, e3);
    var s4 := Step(c, s3, e4);
    assert [e5][1..] == [] && [e4, e5][1..] == [e5] && [e3, e4, e5][1..] == [e4, e5];
    assert [e2, e3, e4, e5][1..] == [e3, e4, e5] && [e1, e2, e3, e4, e5][1..] == [e2, e3, e4, e5];
    assert Run(c, s4, [e5]) == Step(c, s4, e5);
    assert Run(c, s3, [e4, e5]) == Run(c, s4, [e5]);
    assert Run(c, s2, [e3, e4, e5]) == Run(c, s3, [e4, e5]);
    assert Run(c, s1, [e2, e3, e4, e5]) == Run(c, s2, [e3, e4, e5]);
  }

  /** After these events a vote against the addition executes it. */
  lemma {:induction false} VoteAgainstExecutes()
    ensures var s := Run(TWO_THIRDS, Init([1, 2, 3, 4]), Lowered()); var e := Voting(1, 3, false, 5);
      && ToExecute(TWO_THIRDS, s, e) == Some(Due(Add, 9))
      && Step(TWO_THIRDS, s, e).validators == [1, 2, 3, 9]
  {
    var s := Run(TWO_THIRDS, Init([1, 2, 3, 4]), Lowered());
    FiveEvents(TWO_THIRDS, Init([1, 2, 3, 4]), Proposing(1, Add, 9, 0), Voting(1, 2, true, 1),
               Proposing(1, Remove, 4, 2), Voting(2, 2, true, 3), Voting(2, 3, true, 4));
    HalfAdded();
    var s2 := Step(TWO_THIRDS, Step(TWO_THIRDS, Init([1, 2, 3, 4]), Proposing(1, Add, 9, 0)), Voting(1, 2, true, 1));
    var s3 := Step(TWO_THIRDS, s2, Proposing(1, Remove, 4, 2));
    RemovalOpened(s2);
    RemovalSeconded(s3);
    FourthRemoved(Step(TWO_THIRDS, s3, Voting(2, 2, true, 3)));
    LateVote(s);
  }

  lemma {:induction false} LateVote(s: State)
    requires s.validators == [1, 2, 3] && 1 in s.proposals
    requires s.proposals[1] == HALF_ADDED
    ensures var e := Voting(1, 3, false, 5);
      && ToExecute(TWO_THIRDS, s, e) == Some(Due(Add, 9))
      && Step(TWO_THIRDS, s, e).validators == [1, 2, 3, 9]
  {
    assert Threshold(TWO_THIRDS, 3) == 2;
    ExecutesExactly(TWO_THIRDS, s, Voting(1, 3, false, 5));
    assert [1, 2, 3] + [9] == [1, 2, 3, 9];
  }

  /** Two overlapping proposals to add the same address: both are executed, and it is a validator twice. */
  lemma OverlappingAddsDuplicate()
    ensures var c := Config(1000, 2, 3, 1, 21);
            var es := [Proposing(1, Add, 9, 0), Proposing(2, Add, 9, 0), Voting(1, 2, true, 1), Voting(2, 1, true, 1)];
            Run(c, Init([1, 2]), es).validators == [1, 2, 9, 9]
  {
    var c := Config(1000, 2, 3, 1, 21);
    var e1, e2, e3, e4 := Proposing(1, Add, 9, 0), Proposing(2, Add, 9, 0), Voting(1, 2, true, 1),
        Voting(2, 1, true, 1);
    var s2 := Step(c, Step(c, Init([1, 2]), e1), e2);
    var s3 := Step(c, s2, e3);
    assert s3.validators == [1, 2, 9];
    assert Step(c, s3, e4).validators == [1, 2, 9, 9];
    assert [e1, e2, e3, e4][1..] == [e2, e3, e4];
    assert [e2, e3, e4][1..] == [e3, e4];
    assert [e3, e4][1..] == [e4];
  }

  /** A pending proposal is undecided, all its voters are validators, and its change is still valid. */
  ghost predicate Undecided(c: Config, vs: seq<Address>, p: Proposal)
    requires c.denominator > 0
  {
    && (forall v :: v in p.votesFor + p.votesAgainst ==> v in vs)
    && |p.votesFor| < Threshold(c, |vs|) && |p.votesAgainst| < Threshold(c, |vs|) && p.votesFor != []
    && StillValid(c, vs, p.kind, p.target)
  }

  ghost predicate Orderly(c: Config, s: State, initial: seq<Address>)
    requires c.denominator > 0
  {
    && Consistent(s, initial) && OnePending(s) && SetInBounds(c, s.validators)
    && forall id :: id in s.proposals && s.proposals[id].phase.Pending? ==> Undecided(c, s.validators, s.proposals[id])
  }

  /** `id` is pending and every other proposal is decided. */
  ghost predicate OnlyPending(s: State, id: ProposalId) {
    && id in s.proposals && s.proposals[id].phase.Pending?
    && forall i :: i in s.proposals && i != id ==> !s.proposals[i].phase.Pending?
  }

  lemma ExecuteKeepsOrderly(c: Config, s: State, initial: seq<Address>, id: ProposalId, block: nat)
    requires c.denominator > 0 && Consistent(s, initial) && OnlyPending(s, id) && SetInBounds(c, s.validators)
    requires var p := s.proposals[id];
             && (forall v :: v in p.votesFor + p.votesAgainst ==> v in s.validators)
             && p.votesFor != [] && StillValid(c, s.validators, p.kind, p.target)
    ensures Orderly(c, CheckAndExecute(c, s, id, block).0, initial)
  {
    ExecuteKeepsConsistent(c, s, initial, id, block);
    ExecutionSafeExactly(c, s.validators, s.proposals[id].kind, s.proposals[id].target);
  }

  lemma ProposeKeepsOrderly(c: Config, s: State, initial: seq<Address>, proposer: Address, kind: Kind, target: Address,
      block: nat)
    requires c.denominator > 0 && Orderly(c, s, initial) && OnePending(Propose(c, s, proposer, kind, target, block).0)
    ensures Orderly(c, Propose(c, s, proposer, kind, target, block).0, initial)
  {
    if ProposalError(c, s, proposer, kind, target).None? {
      var id := s.nextId;
      var t := s.(nextId := id + 1, proposals := s.proposals[id := NewProposal(c, id, proposer, kind, target, block)]);
      assert ExecutedIds(t) == ExecutedIds(s);
      assert Consistent(t, initial);
      if Threshold(c, |s.validators|) <= 1 {
        ExecuteKeepsOrderly(c, t, initial, id, block);
      }
    }
  }

  lemma VoteKeepsOrderly(c: Config, s: State, initial: seq<Address>, id: ProposalId, voter: Address, approve: bool,
      block: nat)
    requires c.denominator > 0 && Orderly(c, s, initial)
    ensures Orderly(c, Vote(c, s, id, voter, approve, block).0, initial)
  {
    if VoteError(s, id, voter).None? {
      var t := s.(proposals := s.proposals[id := Voted(s.proposals[id], voter, approve)]);
      assert ExecutedIds(t) == ExecutedIds(s);
      VotedDistinct(s.proposals[id], voter, approve);
      assert Consistent(t, initial);
      ExecuteKeepsOrderly(c, t, initial, id, block);
    }
  }

  lemma StepKeepsOrderly(c: Config, s: State, initial: seq<Address>, e: Event)
    requires c.denominator > 0 && Orderly(c, s, initial) && OnePending(Step(c, s, e))
    ensures Orderly(c, Step(c, s, e), initial)
  {
    match e
    case Proposing(p, k, t, b) => ProposeKeepsOrderly(c, s, initial, p, k, t, b);
    case Voting(id, v, a, b) => VoteKeepsOrderly(c, s, initial, id, v, a, b);
    case Expiring(_) => StepKeepsConsistent(c, s, initial, e);
  }

  ghost predicate OneAtATime(c: Config, s: State, es: seq<Event>)
    requires c.denominator > 0
    decreases |es|
  {
    OnePending(s) && (es == [] || OneAtATime(c, Step(c, s, es[0]), es[1..]))
  }

  /**
   If at most one proposal is ever pending, a set that starts distinct and within its bounds stays so,
   every pending proposal is undecided, and its voters are all validators.
   */
  lemma {:induction false} OrderlyRuns(c: Config, s: State, initial: seq<Address>, es: seq<Event>)
    requires c.denominator > 0 && Orderly(c, s, initial) && OneAtATime(c, s, es)
    ensures Orderly(c, Run(c, s, es), initial)
    decreases |es|
  {
    if es != [] {
      StepKeepsOrderly(c, s, initial, es[0]);
      OrderlyRuns(c, Step(c, s, es[0]), initial, es[1..]);
    }
  }

  lemma {:induction false} SetStaysInBounds(c: Config, initial: seq<Address>, es: seq<Event>)
    requires c.denominator > 0 && SetInBounds(c, initial) && OneAtATime(c, Init(initial), es)
    ensures SetInBounds(c, Run(c, Init(initial), es).validators)
  {
    assert ExecutedIds(Init(initial)) == {};
    OrderlyRuns(c, Init(initial), initial, es);
  }

  // ---------- Round robin ----------

  /** Over any `|validators|` consecutive heights each position of the list has its turn at exactly one height. */
  lemma EachPositionOnce(validators: seq<Address>, first: nat, i: nat) returns (h: nat)
    requires i < |validators|
    ensures first <= h < first + |validators| && h % |validators| == i
    ensures ProposerForHeight(validators, h) == Some(validators[i])
    ensures forall k :: first <= k < first + |validators| && k % |validators| == i ==> k == h
  {
    var n := |validators|;
    var q := first / n;
    assert first == q * n + first % n;
    assert (q + 1) * n == q * n + n;
    var turn := if first % n <= i then q else q + 1;
    h := turn * n + i;
    Quotient(turn, n, i);
    forall k | first <= k < first + n && k % n == i
      ensures k == h
    {
      assert k == (k / n) * n + i;
      CloseMultiples(k / n, turn, n);
    }
  }
}

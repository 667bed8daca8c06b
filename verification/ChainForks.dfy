/**
 Forks: what the ancestor search finds, when fork detection is right, and that reorganising onto a
 stored branch ends at its tip.
 */
module ChainForks {
  import opened Wrappers
  import opened Primitives
  import opened Poa
  import opened Storage
  import opened Chain
  import opened Reorg
  import opened ChainRuns

  type Headers = map<Hash, Header>

  /** The parent of `h` is known, and is numbered below it. */
  predicate HasParent(hs: Headers, h: Hash) {
    h in hs && hs[h].parentHash in hs && hs[hs[h].parentHash].number < hs[h].number
  }

  function Rank(hs: Headers, h: Hash): nat {
    if h in hs then hs[h].number else 0
  }

  /** The ancestor of `h`, or `h` itself, at number `n`. */
  function Ancestor(hs: Headers, h: Hash, n: nat): Hash
    decreases Rank(hs, h)
  {
    if HasParent(hs, h) && hs[h].number > n then Ancestor(hs, hs[h].parentHash, n) else h
  }

  ghost predicate GroundedAt(hs: Headers, g: Header, h: Hash)
    requires h in hs
  {
    && HashOf(hs[h]) == h
    && if hs[h].number == 0 then hs[h] == g
       else hs[h].parentHash in hs && hs[h].number == hs[hs[h].parentHash].number + 1
  }

  ghost predicate Grounded(hs: Headers, g: Header) {
    forall h {:trigger GroundedAt(hs, g, h)} :: h in hs ==> GroundedAt(hs, g, h)
  }

  lemma RootedGrounded(t: Tables, g: Header)
    requires Rooted(t, g)
    ensures Grounded(t.headers, g)
  {
    forall h | h in t.headers
      ensures GroundedAt(t.headers, g, h)
    {
      assert RootedAt(t, g, h);
    }
  }

  lemma {:induction false} AncestorThere(hs: Headers, h: Hash, n: nat, g: Header)
    requires Grounded(hs, g) && h in hs && n <= hs[h].number
    ensures Ancestor(hs, h, n) in hs && hs[Ancestor(hs, h, n)].number == n
    ensures n == 0 ==> Ancestor(hs, h, n) == HashOf(g)
    decreases Rank(hs, h)
  {
    assert GroundedAt(hs, g, h);
    if hs[h].number > n {
      AncestorThere(hs, hs[h].parentHash, n, g);
    }
  }

  /** Going down one number is taking the parent. */
  lemma {:induction false} AncestorParent(hs: Headers, h: Hash, n: nat, g: Header)
    requires Grounded(hs, g) && h in hs && n < hs[h].number
    ensures Ancestor(hs, h, n + 1) in hs && hs[Ancestor(hs, h, n + 1)].parentHash == Ancestor(hs, h, n)
    decreases Rank(hs, h)
  {
    assert GroundedAt(hs, g, h);
    AncestorThere(hs, h, n + 1, g);
    var parent := hs[h].parentHash;
    if hs[h].number > n + 1 {
      AncestorParent(hs, parent, n, g);
    } else {
      assert Ancestor(hs, parent, n) == parent;
    }
  }

  // ---------- The canonical chain is the head's ancestry ----------

  lemma DownOne(t: Tables, h: Hash, g: Header, n: nat)
    requires Grounded(t.headers, g) && h in t.headers && n < t.headers[h].number
    requires LinkIn(t, n + 1) && t.byNumber[n + 1] == Ancestor(t.headers, h, n + 1)
    ensures t.byNumber[n] == Ancestor(t.headers, h, n)
  {
    AncestorParent(t.headers, h, n, g);
  }

  /** Up to the head the index names exactly the head's ancestors. */
  lemma {:induction false} IndexIsAncestry(t: Tables, head: Header, g: Header, n: nat)
    requires Canonical(t, Some(head), g) && n <= head.number
    ensures n in t.byNumber && t.byNumber[n] == Ancestor(t.headers, HashOf(head), n)
    decreases head.number - n
  {
    HeadStored(t, head, g);
    if n < head.number {
      IndexIsAncestry(t, head, g, n + 1);
      RootedGrounded(t, g);
      DownOne(t, HashOf(head), g, n);
    }
  }

  // ---------- The search ----------

  /** The number of the highest ancestor of `h` that the index names; 0 if there is none. */
  function Highest(t: Tables, h: Hash): nat
    decreases Rank(t.headers, h)
  {
    if h !in t.headers then 0
    else if OnIndex(t, t.headers[h].number, h) then t.headers[h].number
    else if HasParent(t.headers, h) then Highest(t, t.headers[h].parentHash)
    else 0
  }

  /** Every branch ends at genesis, which the index names. */
  lemma GenesisNamed(t: Tables, head: Header, g: Header, h: Hash)
    requires Canonical(t, Some(head), g) && h in t.headers
    ensures t.headers[h].number == 0 ==> OnIndex(t, 0, h)
    ensures t.headers[h].number > 0 ==>
      HasParent(t.headers, h) && t.headers[t.headers[h].parentHash].number + 1 == t.headers[h].number
  {
    BlockThere(t, g, head.number, 0);
    assert RootedAt(t, g, h) && RootedAt(t, g, t.byNumber[0]);
  }

  /** It is an ancestor on the index, and no higher ancestor is. */
  lemma {:induction false} HighestIs(t: Tables, head: Header, g: Header, h: Hash, n: nat)
    requires Canonical(t, Some(head), g) && h in t.headers && n <= t.headers[h].number
    ensures Highest(t, h) <= t.headers[h].number
    ensures OnIndex(t, Highest(t, h), Ancestor(t.headers, h, Highest(t, h)))
    ensures n > Highest(t, h) ==> !OnIndex(t, n, Ancestor(t.headers, h, n))
    decreases Rank(t.headers, h)
  {
    var number := t.headers[h].number;
    GenesisNamed(t, head, g, h);
    if !OnIndex(t, number, h) {
      HighestIs(t, head, g, t.headers[h].parentHash, if n < number then n else 0);
    }
  }

  lemma {:induction false} HighestBelow(t: Tables, h: Hash)
    ensures Highest(t, h) <= Rank(t.headers, h)
    decreases Rank(t.headers, h)
  {
    if HasParent(t.headers, h) { HighestBelow(t, t.headers[h].parentHash); }
  }

  /** A search of `steps` steps finds it exactly when it is that close, or is genesis. */
  lemma {:induction false} SearchExactly(t: Tables, head: Header, g: Header, steps: nat, h: Hash)
    requires Canonical(t, Some(head), g) && h in t.headers
    ensures FindAncestor(t, steps, h) == Highest(t, h) <==>
      t.headers[h].number - Highest(t, h) < steps || Highest(t, h) == 0
    ensures FindAncestor(t, steps, h) == Highest(t, h) || FindAncestor(t, steps, h) == 0
    decreases steps
  {
    GenesisNamed(t, head, g, h);
    HighestBelow(t, h);
    if steps > 0 && !OnIndex(t, t.headers[h].number, h) {
      SearchExactly(t, head, g, steps - 1, t.headers[h].parentHash);
    }
  }

  /** Whatever a search returns, if it is not above the head it is a common ancestor of branch and head. */
  lemma {:induction false} SearchIsCommon(t: Tables, head: Header, g: Header, steps: nat, h: Hash)
    requires Canonical(t, Some(head), g) && h in t.headers
    ensures var n := FindAncestor(t, steps, h);
      n <= t.headers[h].number
      && (n <= head.number ==> Ancestor(t.headers, h, n) == Ancestor(t.headers, HashOf(head), n)
                               && OnIndex(t, n, Ancestor(t.headers, h, n)))
  {
    var n := FindAncestor(t, steps, h);
    SearchExactly(t, head, g, steps, h);
    HighestIs(t, head, g, h, 0);
    RootedGrounded(t, g);
    if n <= head.number {
      IndexIsAncestry(t, head, g, n);
      AncestorThere(t.headers, h, 0, g);
      AncestorThere(t.headers, HashOf(head), 0, g);
    }
  }

  /** When it found the highest, and that is not above the head, branch and head part right there. */
  lemma {:induction false} SearchIsForkPoint(t: Tables, head: Header, g: Header, h: Hash, n: nat)
    requires Canonical(t, Some(head), g) && h in t.headers
    requires Highest(t, h) < n <= t.headers[h].number && n <= head.number
    ensures Ancestor(t.headers, h, n) != Ancestor(t.headers, HashOf(head), n)
  {
    HighestIs(t, head, g, h, n);
    IndexIsAncestry(t, head, g, n);
  }

  // ---------- Detection ----------

  /** An index entry above the head, left behind by a reorganisation, names this hash. */
  ghost predicate Stale(t: Tables, head: Header, h: Hash) {
    exists n :: n > head.number && OnIndex(t, n, h)
  }

  /**
   A higher block whose parent is stored but is not the head is recognised as a fork exactly when no
   stale index entry names that parent.
   */
  lemma {:induction false} DetectionExactly(t: Tables, head: Header, g: Header, incoming: Header)
    requires Canonical(t, Some(head), g)
    requires incoming.parentHash in t.headers && incoming.number == t.headers[incoming.parentHash].number + 1
    requires incoming.number > head.number && incoming.parentHash != HashOf(head)
    ensures DetectFork(t, head, incoming).Some? <==> !Stale(t, head, incoming.parentHash)
    ensures DetectFork(t, head, incoming).Some? ==>
      DetectFork(t, head, incoming).value == FindAncestor(t, head.number, incoming.parentHash)
  {
    var parent := incoming.parentHash;
    var number := t.headers[parent].number;
    if OnIndex(t, number, parent) {
      EntryNumber(t, head, g, number, parent);
    }
    if Stale(t, head, parent) {
      var n :| n > head.number && OnIndex(t, n, parent);
      EntryNumber(t, head, g, n, parent);
    }
  }

  lemma EntryNumber(t: Tables, head: Header, g: Header, n: nat, h: Hash)
    requires Canonical(t, Some(head), g) && OnIndex(t, n, h)
    ensures h in t.headers && t.headers[h].number == n
    ensures n == head.number ==> h == HashOf(head)
  {}

  // ---------- Applying a stored branch ----------

  predicate AllSigned(txs: seq<Tx>) {
    forall i :: 0 <= i < |txs| ==> txs[i].signer.Some?
  }

  predicate EvmSigned(txs: seq<Tx>) {
    forall i :: 0 <= i < |txs| ==> !txs[i].isGame ==> txs[i].signer.Some?
  }

  predicate GameSigned(txs: seq<Tx>) {
    forall i :: 0 <= i < |txs| ==> txs[i].isGame ==> txs[i].signer.Some?
  }

  lemma {:induction false} EvmOfSigned(txs: seq<Tx>)
    ensures AllSigned(EvmOf(txs)) <==> EvmSigned(txs)
  {
    if txs != [] {
      EvmOfSigned(txs[1..]);
      assert txs == [txs[0]] + txs[1..];
      if !txs[0].isGame {
        assert EvmOf(txs)[0] == txs[0] && EvmOf(txs)[1..] == EvmOf(txs[1..]);
        assert EvmOf(txs) == [txs[0]] + EvmOf(txs[1..]);
      }
    }
  }

  lemma {:induction false} ActionsSigned(txs: seq<Tx>)
    requires GameSigned(txs)
    ensures ActionsOf(txs).Some?
  {
    if txs != [] {
      ActionsSigned(txs[1..]);
    }
  }

  lemma {:induction false} EvmFails(o: Oracles, loaded: Accounts, pr: Progress, txs: seq<Tx>, number: nat)
    requires !pr.failed
    ensures EvmPhase(o, loaded, pr, txs, number).failed <==> !AllSigned(txs)
    decreases |txs|
  {
    if txs != [] && txs[0].signer.Some? {
      EvmFails(o, loaded, EvmStep(o, loaded, pr, txs[0], number), txs[1..], number);
      assert txs == [txs[0]] + txs[1..];
    }
  }

  lemma {:induction false} GameFails(pr: Progress, txs: seq<Tx>, number: nat)
    requires !pr.failed
    ensures GamePhase(pr, txs, number).failed <==> !GameSigned(txs)
    decreases |txs|
  {
    if txs != [] && (txs[0].isGame ==> txs[0].signer.Some?) {
      GameFails(GameStep(pr, txs[0], number), txs[1..], number);
      assert txs == [txs[0]] + txs[1..];
    }
  }

  lemma ProcessedFails(o: Oracles, accounts: Accounts, txs: seq<Tx>, actions: nat, number: nat)
    ensures Processed(o, accounts, txs, actions, number).failed <==> !AllSigned(txs)
  {
    var start := Progress(accounts, [], FlatGas(actions), [], false);
    var evm := EvmPhase(o, accounts, start, EvmOf(txs), number);
    EvmFails(o, accounts, start, EvmOf(txs), number);
    EvmOfSigned(txs);
    if !evm.failed {
      GameFails(Flushed(o, accounts, evm, EvmOf(txs)), txs, number);
    }
  }

  ghost predicate Ticks(o: Oracles, txs: seq<Tx>) {
    ActionsOf(txs).Some? && o.tick(ActionsOf(txs).value)
  }

  /**
   A block is applied exactly when it passes the consensus checks, every sender is recoverable and the game takes its
   actions.
   */
  lemma AppliedExactly(rules: Rules, o: Oracles, s: State, b: Block)
    ensures Apply(rules, o, s, b).error.None? <==>
      && s.head.Some? && VerifyBlock(rules.recover, rules.validators, b, s.head.value).None?
      && AllSigned(b.txs) && Ticks(o, b.txs)
  {
    var actions := ActionsOf(b.txs);
    if actions.Some? {
      ProcessedFails(o, s.accounts, b.txs, |actions.value|, b.header.number);
    } else if AllSigned(b.txs) {
      ActionsSigned(b.txs);
    }
  }

  // ---------- Stored blocks stay applicable ----------

  ghost predicate SealedAt(rules: Rules, t: Tables, h: Hash) {
    h in t.headers && h in t.bodies && (t.headers[h].number > 0 ==>
      t.headers[h].parentHash in t.headers
      && VerifyBlock(rules.recover, rules.validators, Block(t.headers[h], t.bodies[h]),
          t.headers[t.headers[h].parentHash]).None?
      && AllSigned(t.bodies[h]))
  }

  /** Every stored block has passed the checks on its parent. */
  ghost predicate Sealed(rules: Rules, t: Tables) {
    forall h :: h in t.headers ==> SealedAt(rules, t, h)
  }

  lemma StoredKeepsSealed(rules: Rules, t: Tables, b: Block, head: Header, g: Header)
    requires Sealed(rules, t) && Canonical(t, Some(head), g)
    requires VerifyBlock(rules.recover, rules.validators, b, head).None? && AllSigned(b.txs)
    ensures Sealed(rules, WithBlock(t, b))
  {
    var u := WithBlock(t, b);
    HeadStored(t, head, g);
    forall h | h in u.headers
      ensures SealedAt(rules, u, h)
    {
      if h != HashOf(b.header) {
        assert SealedAt(rules, t, h);
      } else {
        assert HashOf(head) != HashOf(b.header);
      }
    }
  }

  lemma ApplyKeepsSealed(rules: Rules, o: Oracles, s: State, b: Block, g: Header)
    requires Sealed(rules, s.tables) && Inv(s, g)
    ensures Sealed(rules, Apply(rules, o, s, b).state.tables)
  {
    ApplyCases(rules, o, s, b);
    AppliedExactly(rules, o, s, b);
    var out := Apply(rules, o, s, b);
    if out.error.None? {
      StoredKeepsSealed(rules, s.tables, b, s.head.value, g);
      SealedElsewhere(rules, WithBlock(s.tables, b), out.state.tables);
    }
  }

  lemma SealedElsewhere(rules: Rules, t: Tables, u: Tables)
    requires Sealed(rules, t) && u.headers == t.headers && u.bodies == t.bodies
    ensures Sealed(rules, u)
  {
    forall h | h in u.headers
      ensures SealedAt(rules, u, h)
    {
      assert SealedAt(rules, t, h);
    }
  }

  lemma {:induction false} ApplyAllKeepsSealed(rules: Rules, s: State, jobs: seq<Job>, g: Header)
    requires Sealed(rules, s.tables) && Inv(s, g)
    ensures Sealed(rules, ApplyAll(rules, s, jobs).state.tables)
    decreases |jobs|
  {
    if |jobs| > 0 {
      ApplyKeepsSealed(rules, jobs[0].oracles, s, jobs[0].block, g);
      ApplyKeeps(rules, jobs[0].oracles, s, jobs[0].block, g);
      var out := Apply(rules, jobs[0].oracles, s, jobs[0].block);
      if out.error.None? {
        ApplyAllKeepsSealed(rules, out.state, jobs[1..], g);
      }
    }
  }

  lemma ReorgKeepsSealed(rules: Rules, s: State, fork: nat, jobs: seq<Job>, g: Header)
    requires Sealed(rules, s.tables) && Inv(s, g)
    ensures Sealed(rules, Reorganised(rules, s, fork, jobs).state.tables)
  {
    if fork <= NumberOf(s) {
      var u := AtFork(s, fork);
      AtForkKeeps(s, fork, g);
      assert u.tables.headers == s.tables.headers && u.tables.bodies == s.tables.bodies;
      SealedElsewhere(rules, s.tables, u.tables);
      ApplyAllKeepsSealed(rules, u, jobs, g);
    }
  }

  lemma StepKeepsSealed(rules: Rules, s: State, e: Event, g: Header)
    requires Sealed(rules, s.tables) && Inv(s, g)
    ensures Sealed(rules, Step(rules, s, e).tables)
  {
    if e.Arrived? {
      ApplyKeepsSealed(rules, e.job.oracles, s, e.job.block, g);
    } else if e.Reorged? {
      ReorgKeepsSealed(rules, s, e.fork, e.jobs, g);
    } else {
      assert Step(rules, s, e).tables == s.tables;
    }
  }

  lemma {:induction false} RunKeepsSealed(rules: Rules, s: State, es: seq<Event>, g: Header)
    requires Sealed(rules, s.tables) && Inv(s, g)
    ensures Sealed(rules, Run(rules, s, es).tables) && Inv(Run(rules, s, es), g)
    decreases |es|
  {
    if |es| > 0 {
      StepKeepsSealed(rules, s, es[0], g);
      StepKeeps(rules, s, es[0], g);
      RunKeepsSealed(rules, Step(rules, s, es[0]), es[1..], g);
    }
  }

  // ---------- Reorganising onto a stored branch ----------

  /** The jobs are the branch of `h` above `fork`, lowest first, and the game takes each of them. */
  ghost predicate IsBranch(t: Tables, h: Hash, fork: nat, jobs: seq<Job>) {
    && fork + |jobs| == Rank(t.headers, h)
    && forall i :: 0 <= i < |jobs| ==> IsJob(t, Ancestor(t.headers, h, fork + 1 + i), jobs[i])
  }

  ghost predicate IsJob(t: Tables, h: Hash, job: Job) {
    h in t.headers && h in t.bodies && job.block == Block(t.headers[h], t.bodies[h]) && Ticks(job.oracles, t.bodies[h])
  }

  /** The block above the head on a stored branch passes the checks. */
  lemma NextPasses(rules: Rules, t: Tables, head: Header, g: Header, h: Hash)
    requires Sealed(rules, t) && Canonical(t, Some(head), g) && h in t.headers
    requires head.number < t.headers[h].number && HashOf(head) == Ancestor(t.headers, h, head.number)
    ensures var next := Ancestor(t.headers, h, head.number + 1);
      && next in t.headers && next in t.bodies && HashOf(t.headers[next]) == next
      && VerifyBlock(rules.recover, rules.validators, Block(t.headers[next], t.bodies[next]), head).None?
      && AllSigned(t.bodies[next])
  {
    var next := Ancestor(t.headers, h, head.number + 1);
    RootedGrounded(t, g);
    AncestorParent(t.headers, h, head.number, g);
    AncestorThere(t.headers, h, head.number + 1, g);
    assert SealedAt(rules, t, next) && RootedAt(t, g, next);
    HeadStored(t, head, g);
  }

  lemma StoredAgain(t: Tables, h: Hash)
    requires h in t.headers && h in t.bodies && HashOf(t.headers[h]) == h
    ensures var u := WithBlock(t, Block(t.headers[h], t.bodies[h])); u.headers == t.headers && u.bodies == t.bodies
  {
    assert t.headers[h := t.headers[h]] == t.headers && t.bodies[h := t.bodies[h]] == t.bodies;
  }

  lemma AppliedTables(rules: Rules, o: Oracles, s: State, b: Block)
    requires Apply(rules, o, s, b).error.None?
    ensures Apply(rules, o, s, b).state.head == Some(b.header)
    ensures Apply(rules, o, s, b).state.tables == WithBlock(s.tables, b).(latest := Some(b.header.number))
  {}

  lemma StoredApplies(rules: Rules, s: State, next: Hash, job: Job)
    requires s.head.Some? && IsJob(s.tables, next, job) && HashOf(s.tables.headers[next]) == next
    requires VerifyBlock(rules.recover, rules.validators, job.block, s.head.value).None? && AllSigned(job.block.txs)
    ensures var out := Apply(rules, job.oracles, s, job.block);
      && out.error.None? && out.state.head == Some(job.block.header)
      && out.state.tables.headers == s.tables.headers && out.state.tables.bodies == s.tables.bodies
  {
    StoredAgain(s.tables, next);
    AppliedExactly(rules, job.oracles, s, job.block);
    AppliedTables(rules, job.oracles, s, job.block);
  }

  /** It can be applied, which changes no header and no body. */
  lemma {:induction false} NextOfBranch(rules: Rules, s: State, head: Header, g: Header, h: Hash, next: Hash, job: Job)
    requires Sealed(rules, s.tables) && Canonical(s.tables, Some(head), g) && h in s.tables.headers
    requires s.head == Some(head) && head.number < s.tables.headers[h].number
    requires HashOf(head) == Ancestor(s.tables.headers, h, head.number)
    requires next == Ancestor(s.tables.headers, h, head.number + 1) && IsJob(s.tables, next, job)
    ensures var out := Apply(rules, job.oracles, s, job.block);
      && out.error.None? && out.state.head == Some(job.block.header) && HashOf(job.block.header) == next
      && out.state.tables.headers == s.tables.headers && out.state.tables.bodies == s.tables.bodies
  {
    NextPasses(rules, s.tables, head, g, h);
    StoredApplies(rules, s, next, job);
  }

  /** One step up the branch leaves everything ready for the next. */
  lemma BranchStep(rules: Rules, s: State, g: Header, h: Hash, jobs: seq<Job>)
    requires Climbing(rules, s, g, h, jobs) && |jobs| > 0
    ensures var out := Apply(rules, jobs[0].oracles, s, jobs[0].block);
      && out.error.None? && out.state.tables.headers == s.tables.headers
      && Climbing(rules, out.state, g, h, jobs[1..])
  {
    var n := NumberOf(s);
    var next := Ancestor(s.tables.headers, h, n + 1);
    FirstOfBranch(s.tables, h, n, jobs);
    NextOfBranch(rules, s, s.head.value, g, h, next, jobs[0]);
    var out := Apply(rules, jobs[0].oracles, s, jobs[0].block);
    ApplyKeeps(rules, jobs[0].oracles, s, jobs[0].block, g);
    ApplyKeepsSealed(rules, jobs[0].oracles, s, jobs[0].block, g);
    BranchTail(s.tables, out.state.tables, h, n, jobs);
  }

  lemma {:induction false} FirstOfBranch(t: Tables, h: Hash, fork: nat, jobs: seq<Job>)
    requires IsBranch(t, h, fork, jobs) && |jobs| > 0
    ensures IsJob(t, Ancestor(t.headers, h, fork + 1), jobs[0]) && fork < Rank(t.headers, h)
  {
    assert IsJob(t, Ancestor(t.headers, h, fork + 1 + 0), jobs[0]);
  }

  /** The head is on the branch of `h`, and the jobs are the rest of that branch. */
  ghost predicate Climbing(rules: Rules, s: State, g: Header, h: Hash, jobs: seq<Job>) {
    && Sealed(rules, s.tables) && Inv(s, g) && h in s.tables.headers
    && HashOf(s.head.value) == Ancestor(s.tables.headers, h, NumberOf(s))
    && IsBranch(s.tables, h, NumberOf(s), jobs)
  }

  lemma {:induction false} ApplyBranch(rules: Rules, s: State, g: Header, h: Hash, jobs: seq<Job>)
    requires Climbing(rules, s, g, h, jobs)
    ensures ApplyAll(rules, s, jobs).count == |jobs|
    ensures ApplyAll(rules, s, jobs).state.head == Some(s.tables.headers[h])
    decreases |jobs|
  {
    if |jobs| == 0 {
      HeadStored(s.tables, s.head.value, g);
      assert Ancestor(s.tables.headers, h, NumberOf(s)) == h;
    } else {
      BranchStep(rules, s, g, h, jobs);
      ApplyBranch(rules, Apply(rules, jobs[0].oracles, s, jobs[0].block).state, g, h, jobs[1..]);
    }
  }

  lemma BranchTail(t: Tables, u: Tables, h: Hash, fork: nat, jobs: seq<Job>)
    requires IsBranch(t, h, fork, jobs) && |jobs| > 0 && u.headers == t.headers && u.bodies == t.bodies
    ensures IsBranch(u, h, fork + 1, jobs[1..])
  {
    forall i | 0 <= i < |jobs[1..]|
      ensures IsJob(u, Ancestor(u.headers, h, fork + 1 + 1 + i), jobs[1..][i])
    {
      assert IsJob(t, Ancestor(t.headers, h, fork + 1 + (i + 1)), jobs[i + 1]);
    }
  }

  lemma EntryHash(t: Tables, g: Header, n: nat, h: Hash)
    requires Rooted(t, g) && OnIndex(t, n, h) && h in t.headers
    ensures At(t, n).Some? && HashOf(At(t, n).value) == h
  {
    assert RootedAt(t, g, h);
  }

  /** At the fork point everything is as `ApplyBranch` needs it. */
  lemma {:induction false} AtForkReady(rules: Rules, s: State, g: Header, h: Hash, fork: nat, jobs: seq<Job>)
    requires Sealed(rules, s.tables) && Inv(s, g) && h in s.tables.headers
    requires fork <= NumberOf(s) && OnIndex(s.tables, fork, Ancestor(s.tables.headers, h, fork))
    requires IsBranch(s.tables, h, fork, jobs)
    ensures var u := AtFork(s, fork);
      && Sealed(rules, u.tables) && Inv(u, g) && u.tables.headers == s.tables.headers && NumberOf(u) == fork
      && HashOf(u.head.value) == Ancestor(s.tables.headers, h, fork) && IsBranch(u.tables, h, fork, jobs)
  {
    var u := AtFork(s, fork);
    AtForkKeeps(s, fork, g);
    AtForkIs(s, fork, g);
    EntryHash(s.tables, g, fork, Ancestor(s.tables.headers, h, fork));
    SealedElsewhere(rules, s.tables, u.tables);
    BranchElsewhere(s.tables, u.tables, h, fork, jobs);
  }

  /** From a common ancestor that is not above the head, the branch is applied whole and its tip becomes the head. */
  lemma {:induction false} ReorgReachesTip(rules: Rules, s: State, g: Header, h: Hash, fork: nat, jobs: seq<Job>)
    requires Sealed(rules, s.tables) && Inv(s, g) && h in s.tables.headers
    requires fork <= NumberOf(s) && OnIndex(s.tables, fork, Ancestor(s.tables.headers, h, fork))
    requires IsBranch(s.tables, h, fork, jobs)
    ensures var r := Reorganised(rules, s, fork, jobs);
      && r.state.head == Some(s.tables.headers[h])
      && r.result == Ok(ReorgOutcome(fork, NumberOf(s) - fork, |jobs|, s.tables.headers[h].number))
  {
    AtForkReady(rules, s, g, h, fork, jobs);
    ApplyBranch(rules, AtFork(s, fork), g, h, jobs);
    ReorgEnds(rules, s, fork, jobs, s.tables.headers[h]);
  }

  lemma {:induction false} ReorgEnds(rules: Rules, s: State, fork: nat, jobs: seq<Job>, tip: Header)
    requires fork <= NumberOf(s)
    requires ApplyAll(rules, AtFork(s, fork), jobs).count == |jobs|
    requires ApplyAll(rules, AtFork(s, fork), jobs).state.head == Some(tip)
    ensures var r := Reorganised(rules, s, fork, jobs);
      r.state.head == Some(tip) && r.result == Ok(ReorgOutcome(fork, NumberOf(s) - fork, |jobs|, tip.number))
  {}

  lemma BranchElsewhere(t: Tables, u: Tables, h: Hash, fork: nat, jobs: seq<Job>)
    requires IsBranch(t, h, fork, jobs) && u.headers == t.headers && u.bodies == t.bodies
    ensures IsBranch(u, h, fork, jobs)
  {
    forall i | 0 <= i < |jobs|
      ensures IsJob(u, Ancestor(u.headers, h, fork + 1 + i), jobs[i])
    {
      assert IsJob(t, Ancestor(t.headers, h, fork + 1 + i), jobs[i]);
    }
  }

  ghost predicate Detected(s: State, incoming: Header, fork: nat) {
    s.head.Some? && DetectFork(s.tables, s.head.value, incoming) == Some(fork)
  }

  /** From a fork point not above the head the branch is applied whole, even if the search gave up early. */
  lemma DetectedCanBeTaken(rules: Rules, s: State, g: Header, incoming: Header, fork: nat, jobs: seq<Job>)
    requires Sealed(rules, s.tables) && Inv(s, g)
    requires Detected(s, incoming, fork) && fork <= NumberOf(s) && IsBranch(s.tables, incoming.parentHash, fork, jobs)
    ensures TakesBranch(rules, s, fork, jobs, incoming.parentHash)
  {
    SearchIsCommon(s.tables, s.head.value, g, s.head.value.number, incoming.parentHash);
    ReorgReachesTip(rules, s, g, incoming.parentHash, fork, jobs);
    assert RootedAt(s.tables, g, incoming.parentHash);
  }

  /** Reorganising there applies all the blocks and makes `h` the head. */
  ghost predicate TakesBranch(rules: Rules, s: State, fork: nat, jobs: seq<Job>, h: Hash) {
    var r := Reorganised(rules, s, fork, jobs);
    && r.result.Ok? && r.result.value.applied == |jobs|
    && r.state.head.Some? && HashOf(r.state.head.value) == h
  }

  /** A fork point above the head is named by a stale index entry, and the reorganisation is refused. */
  lemma {:induction false} DetectedAhead(rules: Rules, s: State, g: Header, incoming: Header, fork: nat, jobs: seq<Job>)
    requires Inv(s, g) && Detected(s, incoming, fork) && fork > NumberOf(s)
    ensures Reorganised(rules, s, fork, jobs) == ReorgResult(s, Err(ForkAhead))
    ensures Stale(s.tables, s.head.value, Ancestor(s.tables.headers, incoming.parentHash, fork))
  {
    SearchExactly(s.tables, s.head.value, g, s.head.value.number, incoming.parentHash);
    HighestIs(s.tables, s.head.value, g, incoming.parentHash, 0);
  }

  lemma DetectedTakenExactly(rules: Rules, s: State, g: Header, incoming: Header, fork: nat, jobs: seq<Job>)
    requires Sealed(rules, s.tables) && Inv(s, g)
    requires Detected(s, incoming, fork) && IsBranch(s.tables, incoming.parentHash, fork, jobs)
    ensures TakesBranch(rules, s, fork, jobs, incoming.parentHash) <==> fork <= NumberOf(s)
    ensures fork > NumberOf(s) ==> Reorganised(rules, s, fork, jobs) == ReorgResult(s, Err(ForkAhead))
  {
    if fork <= NumberOf(s) {
      DetectedCanBeTaken(rules, s, g, incoming, fork, jobs);
    } else {
      DetectedAhead(rules, s, g, incoming, fork, jobs);
    }
  }

  lemma StartSealed(rules: Rules, g: Header, accounts: Accounts, maxPool: nat)
    requires IsGenesis(g)
    ensures Sealed(rules, Start(g, accounts, maxPool).tables)
  {}

  /**
   On every run: when a fork is detected, reorganising from there onto the stored branch makes the
   incoming block's parent the head exactly when the fork point is not above the head; otherwise it is
   refused and nothing changes.
   */
  lemma {:induction false} DetectedForkTakenExactly(rules: Rules, g: Header, accounts: Accounts, maxPool: nat,
                                                    es: seq<Event>, incoming: Header, fork: nat, jobs: seq<Job>)
    requires IsGenesis(g)
    requires var s := Run(rules, Start(g, accounts, maxPool), es);
      Detected(s, incoming, fork) && IsBranch(s.tables, incoming.parentHash, fork, jobs)
    ensures var s := Run(rules, Start(g, accounts, maxPool), es);
      && (TakesBranch(rules, s, fork, jobs, incoming.parentHash) <==> fork <= NumberOf(s))
      && (fork > NumberOf(s) ==> Reorganised(rules, s, fork, jobs) == ReorgResult(s, Err(ForkAhead)))
  {
    var start := Start(g, accounts, maxPool);
    StartKeeps(g, accounts, maxPool);
    StartSealed(rules, g, accounts, maxPool);
    RunKeepsSealed(rules, start, es, g);
    DetectedTakenExactly(rules, Run(rules, start, es), g, incoming, fork, jobs);
  }

  // ---------- A stale entry ----------

  /** An unsigned, empty block on `parent`. */
  function Child(parent: Header, timestamp: nat): Block {
    Block(Header(HashOf(parent), parent.number + 1, timestamp, parent.gameTick + 1, 1, 0, 0, 0, [], 0), [])
  }

  lemma ChildApplies(rules: Rules, o: Oracles, s: State, timestamp: nat)
    requires s.head.Some? && timestamp > s.head.value.timestamp && o.tick([])
    ensures var out := Apply(rules, o, s, Child(s.head.value, timestamp));
      && out.error.None? && out.state.head == Some(Child(s.head.value, timestamp).header)
      && out.state.tables.byNumber ==
          s.tables.byNumber[s.head.value.number + 1 := HashOf(Child(s.head.value, timestamp).header)]
      && out.state.tables.headers ==
          s.tables.headers[HashOf(Child(s.head.value, timestamp).header) := Child(s.head.value, timestamp).header]
  {
    var b := Child(s.head.value, timestamp);
    AppliedExactly(rules, o, s, b);
    AppliedTables(rules, o, s, b);
  }

  /**
   From any head two blocks are applied; then a reorganisation puts a sibling of the first in their
   place. The index still names the second, so a child of it, one higher than the head, goes unnoticed
   although it belongs to another branch.
   */
  lemma {:induction false} StaleEntryHidesFork(rules: Rules, o: Oracles, s: State, head: Header, g: Header,
                                               b1: Block, b2: Block, c1: Block,
                            incoming: Header)
    requires Inv(s, g) && o.tick([]) && s.head == Some(head)
    requires b1 == Child(head, head.timestamp + 1) && b2 == Child(b1.header, head.timestamp + 2)
    requires c1 == Child(head, head.timestamp + 2) && incoming == Child(b2.header, head.timestamp + 3).header
    ensures var u := Run(rules, s, [Arrived(Job(b1, o)), Arrived(Job(b2, o)), Reorged(head.number, [Job(c1, o)])]);
      && u.head == Some(c1.header)
      && incoming.parentHash in u.tables.headers && incoming.number > NumberOf(u)
      && incoming.parentHash != Ancestor(u.tables.headers, HashOf(c1.header), incoming.number - 1)
      && DetectFork(u.tables, c1.header, incoming) == None
  {
    var s1 := Apply(rules, o, s, b1).state;
    var s2 := Apply(rules, o, s1, b2).state;
    var u := Reorganised(rules, s2, head.number, [Job(c1, o)]).state;
    ThreeSteps(rules, s, [Arrived(Job(b1, o)), Arrived(Job(b2, o)), Reorged(head.number, [Job(c1, o)])]);
    TwoUp(rules, o, s, head, g, b1, b2);
    BackToFork(rules, o, s2, head, c1, head.timestamp + 2, g);
    NotNoticed(u.tables, c1.header, b2.header, incoming);
  }

  lemma OneUp(rules: Rules, o: Oracles, s: State, head: Header, g: Header, timestamp: nat, n: nat)
    requires Inv(s, g) && o.tick([]) && s.head == Some(head) && timestamp > head.timestamp && n <= head.number
    ensures var out := Apply(rules, o, s, Child(head, timestamp)).state;
      && Inv(out, g) && out.head == Some(Child(head, timestamp).header)
      && At(out.tables, n) == At(s.tables, n)
  {
    var b := Child(head, timestamp);
    ChildApplies(rules, o, s, timestamp);
    ApplyKeeps(rules, o, s, b, g);
    BlockThere(s.tables, g, head.number, n);
    assert RootedAt(s.tables, g, s.tables.byNumber[n]);
  }

  lemma TwoUp(rules: Rules, o: Oracles, s: State, head: Header, g: Header, b1: Block, b2: Block)
    requires Inv(s, g) && o.tick([]) && s.head == Some(head)
    requires b1 == Child(head, head.timestamp + 1) && b2 == Child(b1.header, head.timestamp + 2)
    ensures var s2 := Apply(rules, o, Apply(rules, o, s, b1).state, b2).state;
      && Inv(s2, g) && s2.head == Some(b2.header) && At(s2.tables, head.number) == Some(head)
      && OnIndex(s2.tables, b2.header.number, HashOf(b2.header)) && HashOf(b2.header) in s2.tables.headers
      && s2.tables.headers[HashOf(b2.header)] == b2.header
  {
    var s1 := Apply(rules, o, s, b1).state;
    HeadStored(s.tables, head, g);
    OneUp(rules, o, s, head, g, head.timestamp + 1, head.number);
    OneUp(rules, o, s1, b1.header, g, head.timestamp + 2, head.number);
    HeadStored(Apply(rules, o, s1, b2).state.tables, b2.header, g);
  }

  lemma NotNoticed(t: Tables, head: Header, other: Header, incoming: Header)
    requires incoming.parentHash == HashOf(other) && HashOf(other) in t.headers && t.headers[HashOf(other)] == other
    requires HashOf(head) in t.headers && t.headers[HashOf(head)] == head
    requires OnIndex(t, other.number, HashOf(other)) && other.number == head.number + 1
        && incoming.number == other.number + 1
    ensures DetectFork(t, head, incoming) == None
    ensures Ancestor(t.headers, HashOf(head), other.number) == HashOf(head) != HashOf(other)
  {
    assert HashOf(head).header != HashOf(other).header;
    assert t.headers[incoming.parentHash] == other;
    assert !(t.headers[HashOf(head)].number > other.number);
  }

  lemma {:induction false} ThreeSteps(rules: Rules, s: State, es: seq<Event>)
    requires |es| == 3
    ensures Run(rules, s, es) == Step(rules, Step(rules, Step(rules, s, es[0]), es[1]), es[2])
  {
    var s1 := Step(rules, s, es[0]);
    var s2 := Step(rules, s1, es[1]);
    assert es[1..][1..] == es[2..];
    assert es[2..][1..] == [] && es[2..][0] == es[2];
    assert Run(rules, Step(rules, s2, es[2]), []) == Step(rules, s2, es[2]);
    assert Run(rules, s2, es[2..]) == Step(rules, s2, es[2]);
    assert Run(rules, s1, es[1..]) == Run(rules, s2, es[2..]);
  }

  lemma BackToFork(rules: Rules, o: Oracles, s: State, parent: Header, c: Block, timestamp: nat, g: Header)
    requires Inv(s, g) && o.tick([]) && parent.number <= NumberOf(s) && At(s.tables, parent.number) == Some(parent)
    requires timestamp > parent.timestamp && c == Child(parent, timestamp)
    ensures var u := Reorganised(rules, s, parent.number, [Job(c, o)]).state;
      && u.head == Some(c.header)
      && u.tables.byNumber == s.tables.byNumber[parent.number + 1 := HashOf(c.header)]
      && u.tables.headers == s.tables.headers[HashOf(c.header) := c.header]
  {
    var at := AtFork(s, parent.number);
    AtForkIs(s, parent.number, g);
    ChildApplies(rules, o, at, timestamp);
    var jobs := [Job(c, o)];
    assert jobs[1..] == [];
    assert ApplyAll(rules, at, jobs).state == ApplyAll(rules, Apply(rules, o, at, c).state, jobs[1..]).state;
  }

  // ---------- A fork point above the head ----------

  /**
   From any head numbered 2 or more, four events lead to a fork that is detected above the head: two
   blocks are applied, the second is replaced by a sibling, and the head goes back to where it was. A
   child of the replaced block now has the first one, whose index entry is stale, for its fork point, and
   reorganising from there is refused.
   */
  lemma {:induction false} DetectedAboveHead(rules: Rules, o: Oracles, s: State, head: Header, g: Header,
                                             b1: Block, b2: Block, c2: Block, incoming: Header) returns (u: State)
    requires Inv(s, g) && o.tick([]) && s.head == Some(head) && head.number >= 2
    requires b1 == Child(head, head.timestamp + 1) && b2 == Child(b1.header, head.timestamp + 2)
    requires c2 == Child(b1.header, head.timestamp + 3) && incoming == Child(b2.header, head.timestamp + 3).header
    ensures u == Run(rules, s, [Arrived(Job(b1, o)), Arrived(Job(b2, o)), Reorged(head.number + 1, [Job(c2, o)]),
                                Reorged(head.number, [])])
    ensures u.head == Some(head) && Detected(u, incoming, head.number + 1)
    ensures Reorganised(rules, u, head.number + 1, [Job(b2, o)]).result == Err(ForkAhead)
  {
    var s3;
    s3, u := FourReplaced(rules, o, s, head, g, b1, b2, c2);
    Siblings(head, b1, b2, c2);
    BackAndDetected(rules, s3, u, head, g, b1.header, b2.header, incoming);
    RefusedAhead(rules, u, head.number + 1, [Job(b2, o)]);
  }

  /** The state before the last of the four events, and the last. */
  lemma {:induction false} FourReplaced(rules: Rules, o: Oracles, s: State, head: Header, g: Header,
                                        b1: Block, b2: Block, c2: Block) returns (s3: State, u: State)
    requires Inv(s, g) && o.tick([]) && s.head == Some(head)
    requires b1 == Child(head, head.timestamp + 1) && b2 == Child(b1.header, head.timestamp + 2)
    requires c2 == Child(b1.header, head.timestamp + 3)
    ensures Inv(s3, g) && s3.head == Some(c2.header) && Replaced(s3.tables, head, b1.header, b2.header)
    ensures u == Reorganised(rules, s3, head.number, []).state
    ensures u == Run(rules, s, [Arrived(Job(b1, o)), Arrived(Job(b2, o)), Reorged(head.number + 1, [Job(c2, o)]),
                                Reorged(head.number, [])])
  {
    var s2;
    s2, s3, u := FourStates(rules, o, s, b1, b2, head.number + 1, [Job(c2, o)], head.number);
    SiblingInPlace(rules, o, s, s2, s3, head, g, b1, b2, c2);
  }

  lemma RefusedAhead(rules: Rules, s: State, fork: nat, jobs: seq<Job>)
    requires fork > NumberOf(s)
    ensures Reorganised(rules, s, fork, jobs).result == Err(ForkAhead)
  {}

  /** Two blocks and two reorganisations, state by state. */
  lemma FourStates(rules: Rules, o: Oracles, s: State, b1: Block, b2: Block, n: nat, jobs: seq<Job>, m: nat)
    returns (s2: State, s3: State, u: State)
    ensures s2 == Apply(rules, o, Apply(rules, o, s, b1).state, b2).state
    ensures s3 == Reorganised(rules, s2, n, jobs).state && u == Reorganised(rules, s3, m, []).state
    ensures u == Run(rules, s, [Arrived(Job(b1, o)), Arrived(Job(b2, o)), Reorged(n, jobs), Reorged(m, [])])
  {
    s2 := Apply(rules, o, Apply(rules, o, s, b1).state, b2).state;
    s3 := Reorganised(rules, s2, n, jobs).state;
    u := Reorganised(rules, s3, m, []).state;
    FourSteps(rules, s, Arrived(Job(b1, o)), Arrived(Job(b2, o)), Reorged(n, jobs), Reorged(m, []));
  }

  /** The index names the first block, but for the second a sibling of it. */
  ghost predicate Replaced(t: Tables, head: Header, first: Header, second: Header) {
    && At(t, head.number) == Some(head) && OnIndex(t, first.number, HashOf(first)) && At(t, first.number) == Some(first)
    && HashOf(second) in t.headers && t.headers[HashOf(second)] == second
    && !OnIndex(t, second.number, HashOf(second))
  }

  lemma {:induction false} BackAndDetected(rules: Rules, s: State, u: State, head: Header, g: Header,
                                           first: Header, second: Header, incoming: Header)
    requires Inv(s, g) && head.number <= NumberOf(s) && Replaced(s.tables, head, first, second)
    requires u == Reorganised(rules, s, head.number, []).state
    requires head.number >= 2 && first.number == head.number + 1 && second.number == head.number + 2
    requires second.parentHash == HashOf(first)
    requires incoming.parentHash == HashOf(second) && incoming.number == second.number + 1
    ensures u.head == Some(head) && Detected(u, incoming, head.number + 1)
  {
    BackOnly(rules, s, head, g);
    SecondStep(u.tables, head, first, second, incoming);
  }

  /** After the first three of these events. */
  lemma SiblingInPlace(rules: Rules, o: Oracles, s: State, s2: State, s3: State, head: Header, g: Header,
                       b1: Block, b2: Block, c2: Block)
    requires Inv(s, g) && o.tick([]) && s.head == Some(head)
    requires b1 == Child(head, head.timestamp + 1) && b2 == Child(b1.header, head.timestamp + 2)
    requires c2 == Child(b1.header, head.timestamp + 3)
    requires s2 == Apply(rules, o, Apply(rules, o, s, b1).state, b2).state
    requires s3 == Reorganised(rules, s2, head.number + 1, [Job(c2, o)]).state
    ensures Inv(s3, g) && s3.head == Some(c2.header) && Replaced(s3.tables, head, b1.header, b2.header)
  {
    TwoUp(rules, o, s, head, g, b1, b2);
    MiddleOfTwo(rules, o, s, head, g, b1, b2);
    Siblings(head, b1, b2, c2);
    SiblingApplied(rules, o, s2, s3, head, g, b1.header, b2.header, c2);
    ReorgKeeps(rules, s2, head.number + 1, [Job(c2, o)], g);
  }

  lemma Siblings(head: Header, b1: Block, b2: Block, c2: Block)
    requires b1 == Child(head, head.timestamp + 1) && b2 == Child(b1.header, head.timestamp + 2)
    requires c2 == Child(b1.header, head.timestamp + 3)
    ensures b1.header.number == head.number + 1 && b2.header.number == head.number + 2
    ensures b2.header.parentHash == HashOf(b1.header) && c2.header != b2.header
    ensures c2 == Child(b1.header, b1.header.timestamp + 2) && c2.header.number == head.number + 2
  {}

  lemma SiblingApplied(rules: Rules, o: Oracles, s: State, u: State, head: Header, g: Header, first: Header,
                       second: Header, c: Block)
    requires Inv(s, g) && o.tick([]) && s.head == Some(second) && second.number == first.number + 1
    requires At(s.tables, head.number) == Some(head) && At(s.tables, first.number) == Some(first)
    requires head.number < first.number && c == Child(first, first.timestamp + 2) && c.header != second
    requires u == Reorganised(rules, s, first.number, [Job(c, o)]).state
    ensures u.head == Some(c.header) && Replaced(u.tables, head, first, second)
  {
    HeadStored(s.tables, second, g);
    AtOnIndex(s.tables, g, head.number);
    AtOnIndex(s.tables, g, first.number);
    BackToFork(rules, o, s, first, c, first.timestamp + 2, g);
    OthersStay(s.tables, u.tables, head, first, second, c.header);
  }

  lemma AtOnIndex(t: Tables, g: Header, n: nat)
    requires Rooted(t, g) && At(t, n).Some?
    ensures OnIndex(t, n, HashOf(At(t, n).value))
  {
    assert RootedAt(t, g, t.byNumber[n]);
  }

  lemma MiddleOfTwo(rules: Rules, o: Oracles, s: State, head: Header, g: Header, b1: Block, b2: Block)
    requires Inv(s, g) && o.tick([]) && s.head == Some(head)
    requires b1 == Child(head, head.timestamp + 1) && b2 == Child(b1.header, head.timestamp + 2)
    ensures At(Apply(rules, o, Apply(rules, o, s, b1).state, b2).state.tables, b1.header.number) == Some(b1.header)
  {
    var s1 := Apply(rules, o, s, b1).state;
    OneUp(rules, o, s, head, g, head.timestamp + 1, head.number);
    HeadStored(s1.tables, b1.header, g);
    OneUp(rules, o, s1, b1.header, g, head.timestamp + 2, b1.header.number);
  }

  /** Storing a sibling of the second block leaves the index below it and the other headers alone. */
  lemma OthersStay(t: Tables, u: Tables, head: Header, first: Header, second: Header, sibling: Header)
    requires u.byNumber == t.byNumber[sibling.number := HashOf(sibling)]
    requires u.headers == t.headers[HashOf(sibling) := sibling]
    requires At(t, head.number) == Some(head) && OnIndex(t, head.number, HashOf(head))
    requires At(t, first.number) == Some(first) && OnIndex(t, first.number, HashOf(first))
    requires HashOf(second) in t.headers && t.headers[HashOf(second)] == second
    requires head.number < first.number < sibling.number == second.number && sibling != second
    ensures Replaced(u, head, first, second)
  {
    assert HashOf(sibling).header == sibling && HashOf(second).header == second;
    assert HashOf(head).header == head && HashOf(first).header == first;
  }

  lemma BackOnly(rules: Rules, s: State, head: Header, g: Header)
    requires Inv(s, g) && head.number <= NumberOf(s) && At(s.tables, head.number) == Some(head)
    ensures var u := Reorganised(rules, s, head.number, []).state;
      && u.head == Some(head) && u.tables.headers == s.tables.headers && u.tables.byNumber == s.tables.byNumber
  {
    AtForkIs(s, head.number, g);
  }

  /** The search for the fork point of a child of `second` finds `first` in its second step. */
  lemma SecondStep(t: Tables, head: Header, first: Header, second: Header, incoming: Header)
    requires head.number >= 2 && first.number == head.number + 1 && second.number == head.number + 2
    requires At(t, first.number) == Some(first) && t.byNumber[first.number] == HashOf(first)
    requires HashOf(second) in t.headers && t.headers[HashOf(second)] == second && second.parentHash == HashOf(first)
    requires !OnIndex(t, second.number, HashOf(second))
    requires incoming.parentHash == HashOf(second) && incoming.number == second.number + 1
    ensures DetectFork(t, head, incoming) == Some(first.number)
  {
    assert HashOf(head).header != HashOf(second).header;
    assert FindAncestor(t, head.number - 1, HashOf(first)) == first.number;
  }

  lemma {:induction false} FourSteps(rules: Rules, s: State, e1: Event, e2: Event, e3: Event, e4: Event)
    ensures Run(rules, s, [e1, e2, e3, e4]) ==
      Step(rules, Step(rules, Step(rules, Step(rules, s, e1), e2), e3), e4)
  {
    assert [e1, e2, e3, e4][1..] == [e2, e3, e4];
    ThreeSteps(rules, Step(rules, s, e1), [e2, e3, e4]);
  }
}

/**
 The canonical chain on every run: whatever blocks are applied, reorganised away or refused, and
 however often the node restarts, the index from 0 to the head is one linked chain.
 */
module ChainRuns {
  import opened Wrappers
  import opened Primitives
  import opened Poa
  import opened Storage
  import opened Chain
  import opened Reorg
  import TxPool

  datatype Event =
    | Arrived(job: Job)
    | Reorged(fork: nat, jobs: seq<Job>)
    | Submitted(tx: Tx)
    | Restarted

  function Step(rules: Rules, s: State, e: Event): State {
    match e
    case Arrived(job) => Apply(rules, job.oracles, s, job.block).state
    case Reorged(fork, jobs) => Reorganised(rules, s, fork, jobs).state
    case Submitted(tx) => s.(pool := TxPool.Add(s.pool, tx))
    case Restarted => Restored(s.(accounts := s.stored, pool := TxPool.Empty(s.pool.maxSize), head := None))
  }

  function Run(rules: Rules, s: State, es: seq<Event>): State
    decreases |es|
  {
    if |es| == 0 then s else Run(rules, Step(rules, s, es[0]), es[1..])
  }

  /** A freshly initialised node. */
  function Start(g: Header, accounts: Accounts, maxPool: nat): State {
    Genesis(State(EMPTY, map[], accounts, accounts, TxPool.Empty(maxPool), None), g)
  }

  ghost predicate IsGenesis(g: Header) {
    g.number == 0 && g.gameTick == 0
  }

  // ---------- The invariant ----------

  /** `h` continues `p`. */
  ghost predicate Follows(h: Header, p: Header) {
    h.number == p.number + 1 && h.parentHash == HashOf(p) && h.timestamp > p.timestamp && h.gameTick == p.gameTick + 1
  }

  ghost predicate RootedAt(t: Tables, g: Header, h: Hash)
    requires h in t.headers
  {
    && HashOf(t.headers[h]) == h && h in t.bodies
    && t.headers[h].gameTick == t.headers[h].number
    && if t.headers[h].number == 0 then t.headers[h] == g
       else t.headers[h].parentHash in t.headers && Follows(t.headers[h], t.headers[t.headers[h].parentHash])
  }

  /** Every stored header is filed under its hash, has its body, and hangs on a stored parent down to `g`. */
  ghost predicate Rooted(t: Tables, g: Header) {
    forall h {:trigger RootedAt(t, g, h)} :: h in t.headers ==> RootedAt(t, g, h)
  }

  ghost predicate Indexed(t: Tables) {
    forall n :: n in t.byNumber ==> t.byNumber[n] in t.headers && t.headers[t.byNumber[n]].number == n
  }

  /** The index entries up to `top` are there and each names its successor's parent. */
  ghost predicate Linked(t: Tables, top: nat) {
    0 in t.byNumber && forall n: nat :: 0 < n <= top ==> LinkIn(t, n)
  }

  ghost predicate HeadIs(t: Tables, head: Option<Header>) {
    head.Some? && t.latest == Some(head.value.number) && OnIndex(t, head.value.number, HashOf(head.value))
    && HashOf(head.value) in t.headers
  }

  ghost predicate Canonical(t: Tables, head: Option<Header>, g: Header) {
    Rooted(t, g) && Indexed(t) && HeadIs(t, head) && Linked(t, head.value.number)
  }

  ghost predicate Inv(s: State, g: Header) {
    Canonical(s.tables, s.head, g) && TxPool.Valid(s.pool)
  }

  lemma StartKeeps(g: Header, accounts: Accounts, maxPool: nat)
    requires IsGenesis(g)
    ensures Inv(Start(g, accounts, maxPool), g)
  {}

  // ---------- One step ----------

  lemma StoredKeepsRooted(t: Tables, b: Block, head: Header, g: Header)
    requires Rooted(t, g) && Indexed(t) && HashOf(head) in t.headers && t.headers[HashOf(head)] == head
    requires Follows(b.header, head)
    ensures Rooted(WithBlock(t, b), g) && Indexed(WithBlock(t, b))
  {
    var u := WithBlock(t, b);
    assert RootedAt(t, g, HashOf(head));
    forall h | h in u.headers
      ensures RootedAt(u, g, h)
    {
      if h != HashOf(b.header) {
        assert RootedAt(t, g, h);
      }
    }
    forall n | n in u.byNumber
      ensures u.byNumber[n] in u.headers && u.headers[u.byNumber[n]].number == n
    {
      if n != b.header.number {
        assert RootedAt(t, g, t.byNumber[n]);
      }
    }
  }

  lemma HeadStored(t: Tables, head: Header, g: Header)
    requires Canonical(t, Some(head), g)
    ensures HashOf(head) in t.headers && t.headers[HashOf(head)] == head && OnIndex(t, head.number, HashOf(head))
  {
    assert RootedAt(t, g, HashOf(head));
  }

  lemma StoredKeepsLinked(t: Tables, b: Block, head: Header, g: Header)
    requires Rooted(t, g) && Indexed(t) && Linked(t, head.number) && OnIndex(t, head.number, HashOf(head))
    requires Follows(b.header, head)
    ensures Linked(WithBlock(t, b), b.header.number)
  {
    var u := WithBlock(t, b);
    assert u.byNumber == t.byNumber[b.header.number := HashOf(b.header)];
    forall n: nat | 0 < n <= b.header.number
      ensures LinkIn(u, n)
    {
      LinkKept(t, b, head, g, n);
    }
  }

  ghost predicate LinkIn(t: Tables, n: nat) {
    n > 0 && n in t.byNumber && n - 1 in t.byNumber && t.byNumber[n] in t.headers
    && t.headers[t.byNumber[n]].parentHash == t.byNumber[n - 1]
  }

  lemma LinkKept(t: Tables, b: Block, head: Header, g: Header, n: nat)
    requires Rooted(t, g) && Indexed(t) && Linked(t, head.number) && OnIndex(t, head.number, HashOf(head))
    requires Follows(b.header, head) && 0 < n <= b.header.number
    ensures LinkIn(WithBlock(t, b), n)
  {
    if n < b.header.number {
      assert LinkIn(t, n);
      assert t.headers[t.byNumber[n]].number == n;
      assert RootedAt(t, g, t.byNumber[n]);
    }
  }

  /** An unsealed block is not checked further; a seal must be the beneficiary's, and the beneficiary a validator. */
  ghost predicate SealHolds(rules: Rules, h: Header) {
    h.extraData == [] || (SignerOf(rules.recover, h) == Some(h.beneficiary) && h.beneficiary in rules.validators)
  }

  /** A block passes the consensus checks exactly when it follows the head with difficulty 1 and its seal holds. */
  lemma VerifiedExactly(rules: Rules, b: Block, head: Header)
    ensures VerifyBlock(rules.recover, rules.validators, b, head).None? <==>
      Follows(b.header, head) && b.header.difficulty == 1 && SealHolds(rules, b.header)
  {}

  lemma StoredKeeps(s: State, b: Block, pr: Progress, g: Header)
    requires Inv(s, g) && Follows(b.header, s.head.value)
    ensures Inv(Stored(s, b, pr), g)
  {
    CanonicalGrows(s.tables, b, s.head.value, g);
    TxPool.RemoveAllKeepsValid(s.pool, HashesOf(b.txs));
  }

  lemma CanonicalGrows(t: Tables, b: Block, head: Header, g: Header)
    requires Canonical(t, Some(head), g) && Follows(b.header, head)
    ensures Canonical(WithBlock(t, b).(latest := Some(b.header.number)), Some(b.header), g)
  {
    HeadStored(t, head, g);
    StoredKeepsRooted(t, b, head, g);
    StoredKeepsLinked(t, b, head, g);
    LatestElsewhere(WithBlock(t, b), b.header.number, b.header.number, g);
  }

  /** The latest number plays no part in the other tables, and a shorter chain is as well linked. */
  lemma LatestElsewhere(t: Tables, top: nat, n: nat, g: Header)
    requires Rooted(t, g) && Indexed(t) && Linked(t, top) && n <= top
    ensures var u := t.(latest := Some(n)); Rooted(u, g) && Indexed(u) && Linked(u, n)
  {
    var u := t.(latest := Some(n));
    LinkedElsewhere(t, u, top, n);
    forall h | h in u.headers
      ensures RootedAt(u, g, h)
    {
      assert RootedAt(t, g, h);
    }
    forall k | k in u.byNumber
      ensures u.byNumber[k] in u.headers && u.headers[u.byNumber[k]].number == k
    {
      assert k in t.byNumber;
    }
  }

  lemma LinkedElsewhere(t: Tables, u: Tables, top: nat, n: nat)
    requires Linked(t, top) && n <= top && u.headers == t.headers && u.byNumber == t.byNumber
    ensures Linked(u, n)
  {
    forall k: nat | 0 < k <= n
      ensures LinkIn(u, k)
    {
      assert LinkIn(t, k);
    }
  }

  /** A block is either stored on the head, or nothing but the account store's uncommitted part changes. */
  lemma ApplyCases(rules: Rules, o: Oracles, s: State, b: Block)
    ensures var out := Apply(rules, o, s, b);
      && (out.error.None? ==> s.head.Some? && VerifyBlock(rules.recover, rules.validators, b, s.head.value).None?
                              && exists pr :: out.state == Stored(s, b, pr))
      && (out.error.Some? ==> out.state == s.(accounts := out.state.accounts))
  {}

  lemma ApplyKeeps(rules: Rules, o: Oracles, s: State, b: Block, g: Header)
    requires Inv(s, g)
    ensures var out := Apply(rules, o, s, b);
      && Inv(out.state, g)
      && (out.error.None? ==> out.state.head == Some(b.header) && Follows(b.header, s.head.value))
      && (out.error.Some? ==> out.state == s.(accounts := out.state.accounts))
  {
    ApplyCases(rules, o, s, b);
    var out := Apply(rules, o, s, b);
    if out.error.None? {
      VerifiedExactly(rules, b, s.head.value);
      var pr :| out.state == Stored(s, b, pr);
      StoredKeeps(s, b, pr, g);
    }
  }

  lemma {:induction false} ApplyAllKeeps(rules: Rules, s: State, jobs: seq<Job>, g: Header)
    requires Inv(s, g)
    ensures Inv(ApplyAll(rules, s, jobs).state, g)
    ensures NumberOf(ApplyAll(rules, s, jobs).state) == NumberOf(s) + ApplyAll(rules, s, jobs).count
    ensures ApplyAll(rules, s, jobs).count <= |jobs|
    decreases |jobs|
  {
    if |jobs| > 0 {
      ApplyKeeps(rules, jobs[0].oracles, s, jobs[0].block, g);
      var out := Apply(rules, jobs[0].oracles, s, jobs[0].block);
      if out.error.None? {
        ApplyAllKeeps(rules, out.state, jobs[1..], g);
      }
    }
  }

  lemma {:induction false} AddAllKeepsValid(p: TxPool.Pool, txs: seq<Tx>)
    requires TxPool.Valid(p)
    ensures TxPool.Valid(TxPool.AddAll(p, txs))
    decreases |txs|
  {
    if txs != [] {
      TxPool.AddKeepsValid(p, txs[0]);
      AddAllKeepsValid(TxPool.Add(p, txs[0]), txs[1..]);
    }
  }

  lemma {:induction false} ReturnKeepsValid(t: Tables, p: TxPool.Pool, fork: nat, n: nat)
    requires TxPool.Valid(p)
    ensures TxPool.Valid(ReturnTxs(t, p, fork, n))
    decreases n
  {
    if n > fork {
      var b := BlockByNumber(t, n);
      if b.Some? { AddAllKeepsValid(p, b.value.txs); }
      ReturnKeepsValid(t, if b.Some? then TxPool.AddAll(p, b.value.txs) else p, fork, n - 1);
    }
  }

  /** Up to the head, the index always leads to a whole block with that number. */
  lemma BlockThere(t: Tables, g: Header, top: nat, n: nat)
    requires Rooted(t, g) && Indexed(t) && Linked(t, top) && n <= top
    ensures n in t.byNumber
    ensures var b := BlockByNumber(t, n); b.Some? && b.value.header.number == n && OnIndex(t, n, HashOf(b.value.header))
  {
    assert n > 0 ==> LinkIn(t, n);
    assert RootedAt(t, g, t.byNumber[n]);
  }

  /** Going back to the fork point only moves the head there and gives transactions back to the pool. */
  lemma {:induction false} AtForkIs(s: State, fork: nat, g: Header)
    requires Inv(s, g) && fork <= NumberOf(s)
    ensures At(s.tables, fork).Some? && At(s.tables, fork).value.number == fork
    ensures AtFork(s, fork) == s.(tables := s.tables.(latest := Some(fork)), head := At(s.tables, fork),
                                  pool := ReturnTxs(s.tables, s.pool, fork, NumberOf(s)))
  {
    BlockThere(s.tables, g, NumberOf(s), fork);
  }

  lemma AtForkKeeps(s: State, fork: nat, g: Header)
    requires Inv(s, g) && fork <= NumberOf(s)
    ensures Inv(AtFork(s, fork), g) && NumberOf(AtFork(s, fork)) == fork
  {
    ReturnKeepsValid(s.tables, s.pool, fork, NumberOf(s));
    AtForkIs(s, fork, g);
    ShorterCanonical(s.tables, s.head.value, g, fork);
  }

  lemma ShorterCanonical(t: Tables, head: Header, g: Header, n: nat)
    requires Canonical(t, Some(head), g) && n <= head.number
    ensures Canonical(t.(latest := Some(n)), At(t, n), g)
  {
    BlockThere(t, g, head.number, n);
    LatestElsewhere(t, head.number, n, g);
  }

  /** A reorganisation ends exactly as far above the fork point as blocks were applied. */
  lemma ReorgKeeps(rules: Rules, s: State, fork: nat, jobs: seq<Job>, g: Header)
    requires Inv(s, g)
    ensures Inv(Reorganised(rules, s, fork, jobs).state, g)
    ensures match Reorganised(rules, s, fork, jobs).result
            case Ok(out) => out.newHead == fork + out.applied && out.applied <= |jobs|
                && fork + out.reverted == NumberOf(s)
            case Err(_) => fork > NumberOf(s) && Reorganised(rules, s, fork, jobs).state == s
  {
    if fork <= NumberOf(s) {
      AtForkKeeps(s, fork, g);
      ApplyAllKeeps(rules, AtFork(s, fork), jobs, g);
    }
  }

  /** A restart finds the head it had. */
  lemma RestartKeeps(rules: Rules, s: State, g: Header)
    requires Inv(s, g)
    ensures Inv(Step(rules, s, Restarted), g) && Step(rules, s, Restarted).head == s.head
    ensures Step(rules, s, Restarted).accounts == s.stored
  {
    HeadFound(s, g);
    assert TxPool.Valid(TxPool.Empty(s.pool.maxSize));
    var down := s.(accounts := s.stored, pool := TxPool.Empty(s.pool.maxSize), head := None);
    assert Restored(down) == down.(head := s.head);
  }

  lemma HeadFound(s: State, g: Header)
    requires Inv(s, g)
    ensures s.tables.latest == Some(NumberOf(s)) && NumberOf(s) in s.tables.byNumber
    ensures s.tables.byNumber[NumberOf(s)] in s.tables.headers
    ensures Some(s.tables.headers[s.tables.byNumber[NumberOf(s)]]) == s.head
  {
    assert RootedAt(s.tables, g, HashOf(s.head.value));
  }

  lemma StepKeeps(rules: Rules, s: State, e: Event, g: Header)
    requires Inv(s, g)
    ensures Inv(Step(rules, s, e), g)
  {
    if e.Arrived? {
      ApplyKeeps(rules, e.job.oracles, s, e.job.block, g);
    } else if e.Reorged? {
      ReorgKeeps(rules, s, e.fork, e.jobs, g);
    } else if e.Submitted? {
      TxPool.AddKeepsValid(s.pool, e.tx);
    } else {
      RestartKeeps(rules, s, g);
    }
  }

  lemma {:induction false} RunKeeps(rules: Rules, s: State, es: seq<Event>, g: Header)
    requires Inv(s, g)
    ensures Inv(Run(rules, s, es), g)
    decreases |es|
  {
    if |es| > 0 {
      StepKeeps(rules, s, es[0], g);
      RunKeeps(rules, Step(rules, s, es[0]), es[1..], g);
    }
  }

  // ---------- What it means ----------

  /** The header that the index names at `n`. */
  function At(t: Tables, n: nat): Option<Header> {
    if n in t.byNumber && t.byNumber[n] in t.headers then Some(t.headers[t.byNumber[n]]) else None
  }

  /** Number `n` is on a chain from genesis `g` to the head. */
  ghost predicate OnChain(s: State, g: Header, n: nat) {
    && s.head.Some? && s.tables.latest == Some(NumberOf(s)) && At(s.tables, NumberOf(s)) == s.head
    && At(s.tables, 0) == Some(g)
    && (n <= NumberOf(s) ==>
          At(s.tables, n).Some? && At(s.tables, n).value.number == n == At(s.tables, n).value.gameTick)
    && (0 < n <= NumberOf(s) ==> At(s.tables, n - 1).Some? && Follows(At(s.tables, n).value, At(s.tables, n - 1).value))
  }

  lemma InvOnChain(s: State, g: Header, n: nat)
    requires Inv(s, g)
    ensures OnChain(s, g, n)
  {
    HeadFound(s, g);
    GenesisIndexed(s.tables, s.head.value, g);
    if n <= NumberOf(s) {
      TickIsNumber(s.tables, g, NumberOf(s), n);
      if n > 0 { LinkAt(s.tables, g, NumberOf(s), n); }
    }
  }

  lemma TickIsNumber(t: Tables, g: Header, top: nat, n: nat)
    requires Rooted(t, g) && Indexed(t) && Linked(t, top) && n <= top
    ensures At(t, n).Some? && At(t, n).value.number == n == At(t, n).value.gameTick
  {
    BlockThere(t, g, top, n);
    assert RootedAt(t, g, t.byNumber[n]);
  }

  lemma GenesisIndexed(t: Tables, head: Header, g: Header)
    requires Canonical(t, Some(head), g)
    ensures At(t, 0) == Some(g)
  {
    BlockThere(t, g, head.number, 0);
    assert RootedAt(t, g, t.byNumber[0]);
  }

  /**
   On every run the index from 0 to the head is one chain from genesis: consecutive numbers, parent
   hashes, growing timestamps, a game tick equal to the number; and the stored latest number is the head's.
   */
  lemma {:induction false} CanonicalOnEveryRun(rules: Rules, g: Header, accounts: Accounts, maxPool: nat,
      es: seq<Event>, n: nat)
    requires IsGenesis(g)
    ensures OnChain(Run(rules, Start(g, accounts, maxPool), es), g, n)
  {
    StartKeeps(g, accounts, maxPool);
    RunKeeps(rules, Start(g, accounts, maxPool), es, g);
    InvOnChain(Run(rules, Start(g, accounts, maxPool), es), g, n);
  }

  lemma LinkAt(t: Tables, g: Header, top: nat, n: nat)
    requires Rooted(t, g) && Indexed(t) && Linked(t, top) && 0 < n <= top
    ensures At(t, n).Some? && At(t, n - 1).Some? && Follows(At(t, n).value, At(t, n - 1).value)
  {
    assert LinkIn(t, n);
    assert t.headers[t.byNumber[n]].number == n;
    assert RootedAt(t, g, t.byNumber[n]);
  }
}

/** Fork detection and chain reorganisation. A reorganisation only moves the head: accounts are not rolled back. */
module Reorg {
  import opened Wrappers
  import opened Primitives
  import opened Storage
  import opened Chain
  import TxPool

  /** A block to apply, with what the virtual machine and the game world answer meanwhile. */
  datatype Job = Job(block: Block, oracles: Oracles)

  datatype ReorgOutcome = ReorgOutcome(commonAncestor: nat, reverted: nat, applied: nat, newHead: nat)

  /** The number-to-hash index points at this hash. */
  predicate OnIndex(t: Tables, n: nat, hash: Hash) {
    n in t.byNumber && t.byNumber[n] == hash
  }

  /** Walk back from `hash` until a block on the index; 0 after `steps` blocks or at an unknown one. */
  function FindAncestor(t: Tables, steps: nat, hash: Hash): nat {
    if steps == 0 || hash !in t.headers then 0
    else
      var h := t.headers[hash];
      if OnIndex(t, h.number, hash) then h.number else FindAncestor(t, steps - 1, h.parentHash)
  }

  function DetectFork(t: Tables, head: Header, incoming: Header): Option<nat> {
    if incoming.parentHash == HashOf(head) || incoming.number <= head.number then None
    else if incoming.parentHash !in t.headers then None
    else if OnIndex(t, t.headers[incoming.parentHash].number, incoming.parentHash) then None
    else Some(FindAncestor(t, head.number, incoming.parentHash))
  }

  /** Put the transactions of blocks `n` down to `fork + 1` back into the pool. */
  function ReturnTxs(t: Tables, p: TxPool.Pool, fork: nat, n: nat): TxPool.Pool
    decreases n
  {
    if n <= fork then p
    else
      var b := BlockByNumber(t, n);
      ReturnTxs(t, if b.Some? then TxPool.AddAll(p, b.value.txs) else p, fork, n - 1)
  }

  datatype Applied = Applied(state: State, count: nat)

  /** Apply blocks up to the first that fails. */
  function ApplyAll(rules: Rules, s: State, jobs: seq<Job>): Applied
    decreases |jobs|
  {
    if |jobs| == 0 then Applied(s, 0)
    else
      var out := Apply(rules, jobs[0].oracles, s, jobs[0].block);
      if out.error.Some? then Applied(out.state, 0)
      else
        var rest := ApplyAll(rules, out.state, jobs[1..]);
        Applied(rest.state, rest.count + 1)
  }

  function NumberOf(s: State): nat {
    if s.head.Some? then s.head.value.number else 0
  }

  function AtFork(s: State, fork: nat): State {
    var b := BlockByNumber(s.tables, fork);
    var p := ReturnTxs(s.tables, s.pool, fork, NumberOf(s));
    if b.Some? then s.(pool := p, tables := s.tables.(latest := Some(b.value.header.number)),
        head := Some(b.value.header))
    else s.(pool := p)
  }

  datatype ReorgResult = ReorgResult(state: State, result: Result<ReorgOutcome, NodeError>)

  function Reorganised(rules: Rules, s: State, fork: nat, jobs: seq<Job>): ReorgResult {
    if fork > NumberOf(s) then ReorgResult(s, Err(ForkAhead))
    else
      var done := ApplyAll(rules, AtFork(s, fork), jobs);
      ReorgResult(done.state, Ok(ReorgOutcome(fork, NumberOf(s) - fork, done.count, NumberOf(done.state))))
  }

  lemma {:induction false} ReorganisedAs(rules: Rules, s: State, fork: nat, jobs: seq<Job>, at: State, done: Applied)
    requires fork <= NumberOf(s) && at == AtFork(s, fork) && done == ApplyAll(rules, at, jobs)
    ensures Reorganised(rules, s, fork, jobs).state == done.state
    ensures Reorganised(rules, s, fork, jobs).result ==
      Ok(ReorgOutcome(fork, NumberOf(s) - fork, done.count, NumberOf(done.state)))
  {}

  method FindCommonAncestor(db: Database, height: nat, diverging: Hash) returns (n: nat)
    ensures n == FindAncestor(db.View(), height, diverging)
  {
    var check := diverging;
    for i := 0 to height
      invariant FindAncestor(db.View(), height, diverging) == FindAncestor(db.View(), height - i, check)
    {
      if check !in db.headers {
        return 0;
      }
      var h := db.headers[check];
      if h.number in db.byNumber && db.byNumber[h.number] == check {
        return h.number;
      }
      check := h.parentHash;
    }
    n := 0;
  }

  method ForkOf(db: Database, head: Header, incoming: Header) returns (fork: Option<nat>)
    ensures fork == DetectFork(db.View(), head, incoming)
  {
    if incoming.parentHash == HashOf(head) {
      return None;
    }
    if incoming.number <= head.number {
      return None;
    }
    if incoming.parentHash !in db.headers {
      return None;
    }
    var parent := db.headers[incoming.parentHash];
    if parent.number in db.byNumber && db.byNumber[parent.number] == incoming.parentHash {
      return None;
    }
    var n := FindCommonAncestor(db, head.number, incoming.parentHash);
    fork := Some(n);
  }

  method ReturnTransactions(chain: Chain, fork: nat, top: nat)
    requires chain.Valid()
    modifies chain.pool
    ensures chain.Valid()
    ensures chain.pool.View() == ReturnTxs(chain.db.View(), old(chain.pool.View()), fork, top)
  {
    var n: nat := top;
    while n > fork
      invariant chain.Valid()
      invariant ReturnTxs(chain.db.View(), chain.pool.View(), fork, n)
             == ReturnTxs(chain.db.View(), old(chain.pool.View()), fork, top)
    {
      var b := BlockByNumber(chain.db.View(), n);
      if b.Some? {
        AddEach(chain.pool, b.value.txs);
      }
      n := n - 1;
    }
  }

  method AddEach(pool: TxPool.TransactionPool, txs: seq<Tx>)
    modifies pool
    ensures pool.View() == TxPool.AddAll(old(pool.View()), txs)
  {
    var i := 0;
    assert txs[0..] == txs;
    while i < |txs|
      invariant 0 <= i <= |txs|
      invariant TxPool.AddAll(pool.View(), txs[i..]) == TxPool.AddAll(old(pool.View()), txs)
    {
      var refused := pool.AddTransaction(txs[i]);
      assert txs[i..][0] == txs[i] && txs[i..][1..] == txs[i + 1..];
      i := i + 1;
    }
  }

  method ApplyEach(chain: Chain, jobs: seq<Job>) returns (applied: nat)
    requires chain.Valid()
    modifies chain, chain.db, chain.state, chain.pool
    ensures chain.Valid()
    ensures chain.View() == ApplyAll(chain.rules, old(chain.View()), jobs).state
    ensures applied == ApplyAll(chain.rules, old(chain.View()), jobs).count
  {
    applied := 0;
    ghost var s := chain.View();
    assert jobs[0..] == jobs;
    while applied < |jobs|
      invariant 0 <= applied <= |jobs| && chain.Valid()
      invariant ApplyAll(chain.rules, s, jobs).state == ApplyAll(chain.rules, chain.View(), jobs[applied..]).state
      invariant ApplyAll(chain.rules, s, jobs).count ==
          applied + ApplyAll(chain.rules, chain.View(), jobs[applied..]).count
    {
      var job := jobs[applied];
      assert jobs[applied..][0] == job && jobs[applied..][1..] == jobs[applied + 1..];
      var error := chain.ApplyBlock(job.oracles, job.block);
      if error.Some? {
        return;
      }
      applied := applied + 1;
    }
  }

  /** Return the transactions of the blocks above the fork point and move the head there. */
  method GoBack(chain: Chain, fork: nat, current: nat)
    requires chain.Valid() && current == NumberOf(chain.View())
    modifies chain, chain.db, chain.state, chain.pool
    ensures chain.Valid() && chain.View() == AtFork(old(chain.View()), fork)
  {
    ReturnTransactions(chain, fork, current);
    var b := BlockByNumber(chain.db.View(), fork);
    if b.Some? {
      chain.SetHead(b.value.header);
    }
  }

  method ExecuteReorg(chain: Chain, fork: nat, jobs: seq<Job>) returns (r: Result<ReorgOutcome, NodeError>)
    requires chain.Valid()
    modifies chain, chain.db, chain.state, chain.pool
    ensures chain.Valid()
    ensures chain.View() == Reorganised(chain.rules, old(chain.View()), fork, jobs).state
    ensures r == Reorganised(chain.rules, old(chain.View()), fork, jobs).result
  {
    var current := chain.BlockNumber();
    if fork > current {
      return Err(ForkAhead);
    }
    ghost var before := chain.View();
    GoBack(chain, fork, current);
    ghost var done := ApplyAll(chain.rules, chain.View(), jobs);
    ReorganisedAs(chain.rules, before, fork, jobs, chain.View(), done);
    var applied := ApplyEach(chain, jobs);
    var top := chain.BlockNumber();
    r := Ok(ReorgOutcome(fork, current - fork, applied, top));
  }
}

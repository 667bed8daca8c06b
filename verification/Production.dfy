/** Producing a block: preparing its header, choosing pooled transactions up to the gas limit, sealing, applying. */
module Production {
  import opened Wrappers
  import opened OrderedKeys
  import opened Primitives
  import opened Poa
  import opened Storage
  import opened Chain
  import TxPool

  const BLOCK_GAS_LIMIT: nat := 30_000_000
  const MAX_PENDING: nat := 1000

  /** A validator's key: `sign` gives the 65 bytes of a signature over a hash. */
  datatype Key = Key(address: Address, sign: Hash -> seq<nat>)

  // ---------- Choosing transactions ----------

  function GasOf(tx: Tx): nat {
    if tx.isGame then GAME_GAS else tx.gasLimit
  }

  function GasSum(txs: seq<Tx>): nat {
    if txs == [] then 0 else GasOf(txs[0]) + GasSum(txs[1..])
  }

  /** How many of the pending transactions fit, stopping at the first that does not. */
  function Chosen(pending: seq<Tx>, limit: nat, used: nat): (k: nat)
    ensures k <= |pending|
  {
    if pending == [] || used + GasOf(pending[0]) > limit then 0
    else 1 + Chosen(pending[1..], limit, used + GasOf(pending[0]))
  }

  /** Exactly the prefixes up to that many transactions are within the limit. */
  lemma {:induction false} ChosenExactly(pending: seq<Tx>, limit: nat, used: nat, j: nat)
    requires used <= limit && j <= |pending|
    ensures used + GasSum(pending[..j]) <= limit <==> j <= Chosen(pending, limit, used)
  {
    if j > 0 {
      assert pending[..j][0] == pending[0] && pending[..j][1..] == pending[1..][..j - 1];
      if used + GasOf(pending[0]) <= limit {
        ChosenExactly(pending[1..], limit, used + GasOf(pending[0]), j - 1);
      }
    }
  }

  method Choose(pending: seq<Tx>, limit: nat) returns (selected: seq<Tx>, gasUsed: nat)
    ensures selected == pending[..Chosen(pending, limit, 0)]
    ensures gasUsed == GasSum(selected) <= limit
  {
    selected, gasUsed := [], 0;
    var i := 0;
    assert pending[0..] == pending;
    while i < |pending|
      invariant 0 <= i <= |pending| && selected == pending[..i]
      invariant gasUsed == GasSum(selected) <= limit
      invariant Chosen(pending, limit, 0) == i + Chosen(pending[i..], limit, gasUsed)
    {
      var tx := pending[i];
      assert pending[i..][0] == tx && pending[i..][1..] == pending[i + 1..];
      if gasUsed + GasOf(tx) > limit {
        return;
      }
      GasSumAppend(selected, tx);
      gasUsed := gasUsed + GasOf(tx);
      selected := selected + [tx];
      i := i + 1;
    }
  }

  lemma {:induction false} GasSumAppend(s: seq<Tx>, tx: Tx)
    ensures GasSum(s + [tx]) == GasSum(s) + GasOf(tx)
  {
    if s == [] {
      assert (s + [tx])[1..] == [];
    } else {
      assert (s + [tx])[1..] == s[1..] + [tx];
      GasSumAppend(s[1..], tx);
    }
  }

  // ---------- The header ----------

  /** What a producer knows besides the chain: its clock, the block period, and what fills the other header fields. */
  datatype Clock = Clock(now: nat, period: nat, rest: nat)

  function Prepared(parent: Header, local: Address, tick: nat, c: Clock): Header {
    Header(HashOf(parent), parent.number + 1,
           if c.now > parent.timestamp + c.period then c.now else parent.timestamp + c.period,
           tick, 1, local, BLOCK_GAS_LIMIT, 0, [], c.rest)
  }

  function Sealed(h: Header, key: Key): Header {
    h.(extraData := key.sign(HashOf(h)))
  }

  /** The block built from a list of pending transactions, with the engine's tick already advanced to `tick`. */
  function Built(parent: Header, key: Key, tick: nat, c: Clock, pending: seq<Tx>): Block {
    var h := Prepared(parent, key.address, tick, c);
    var selected := pending[..Chosen(pending, h.gasLimit, 0)];
    Block(Sealed(h.(gasUsed := GasSum(selected)), key), selected)
  }

  datatype Attempt = Attempt(state: State, tick: nat, result: Result<Block, NodeError>)

  /** One attempt; a validator's tick advances even if the block is then refused. */
  function Produced(rules: Rules, o: Oracles, s: State, key: Option<Key>, tick: nat, c: Clock,
      order: seq<Address>): Attempt
    requires forall a :: a in order ==> a in s.pool.bySender
  {
    if s.head.None? then Attempt(s, tick, Err(NotInitialized))
    else if key.None? || key.value.address !in rules.validators then Attempt(s, tick, Err(Consensus(NotValidator)))
    else
      var b := Built(s.head.value, key.value, tick + 1, c, TxPool.Pending(s.pool, order, MAX_PENDING));
      var out := Apply(rules, o, s, b);
      Attempt(out.state, tick + 1, if out.error.Some? then Err(out.error.value) else Ok(b))
  }

  class Producer {
    const chain: Chain
    const key: Option<Key>
    /** The consensus engine's tick counter. */
    var tick: nat

    constructor (c: Chain, k: Option<Key>)
      ensures chain == c && key == k && tick == 0
    {
      chain, key, tick := c, k, 0;
    }

    /** Collect, choose, prepare and seal; `order` is the order in which the pool was walked. */
    method BuildBlock(parent: Header, k: Key, c: Clock) returns (b: Block, ghost order: seq<Address>)
      ensures IsOrder(order, chain.pool.bySender.Keys)
      ensures b == Built(parent, k, tick, c, TxPool.Pending(chain.pool.View(), order, MAX_PENDING))
    {
      var h := Prepared(parent, k.address, tick, c);
      var pending := chain.pool.GetPending(MAX_PENDING);
      order :| IsOrder(order, chain.pool.bySender.Keys)
          && pending == TxPool.Pending(chain.pool.View(), order, MAX_PENDING);
      var selected, gasUsed := Choose(pending, h.gasLimit);
      b := Block(Sealed(h.(gasUsed := gasUsed), k), selected);
    }

    method ProduceBlock(o: Oracles, c: Clock) returns (r: Result<Block, NodeError>, ghost order: seq<Address>)
      requires chain.Valid()
      modifies this, chain, chain.db, chain.state, chain.pool
      ensures chain.Valid()
      ensures order == [] || IsOrder(order, old(chain.pool.bySender).Keys)
      ensures old(chain.head).Some? && key.Some? && key.value.address in chain.rules.validators ==>
        IsOrder(order, old(chain.pool.bySender).Keys)
      ensures Produced(chain.rules, o, old(chain.View()), key, old(tick), c, order) == Attempt(chain.View(), tick, r)
    {
      order := [];
      if chain.head.None? {
        return Err(NotInitialized), order;
      }
      if key.None? || key.value.address !in chain.rules.validators {
        return Err(Consensus(NotValidator)), order;
      }
      tick := tick + 1;
      var b: Block;
      b, order := BuildBlock(chain.head.value, key.value, c);
      var error := chain.ApplyBlock(o, b);
      r := if error.Some? then Err(error.value) else Ok(b);
    }
  }

  // ---------- When an attempt can succeed ----------

  /** Recovery undoes signing. */
  ghost predicate Recovers(recover: Recover, key: Key) {
    forall h :: |key.sign(h)| == 65 && recover(h, key.sign(h)) == Some(key.address)
  }

  /**
   The block a validator builds passes its own checks exactly when the engine's tick was the head's
   and the clock or the period moves time on.
   */
  lemma BuiltPassesExactly(rules: Rules, parent: Header, key: Key, tick: nat, c: Clock, pending: seq<Tx>)
    requires Recovers(rules.recover, key) && key.address in rules.validators
    ensures VerifyBlock(rules.recover, rules.validators, Built(parent, key, tick + 1, c, pending), parent).None? <==>
      tick == parent.gameTick && (c.now > parent.timestamp || c.period > 0)
  {
    var h := Built(parent, key, tick + 1, c, pending).header;
    var bare := h.(extraData := []);
    assert h == Sealed(bare, key);
    assert |key.sign(HashOf(bare))| == 65;
  }

  /** An attempt with another tick than the head's is refused by the consensus checks; only the tick advances. */
  lemma OutOfStep(rules: Rules, o: Oracles, s: State, key: Key, tick: nat, c: Clock, order: seq<Address>)
    requires forall a :: a in order ==> a in s.pool.bySender
    requires s.head.Some? && Recovers(rules.recover, key) && key.address in rules.validators
    requires tick != s.head.value.gameTick
    ensures var r := Produced(rules, o, s, Some(key), tick, c, order);
      r.result == Err(Consensus(InvalidHeader)) && r.state == s && r.tick == tick + 1
  {
    var b := Built(s.head.value, key, tick + 1, c, TxPool.Pending(s.pool, order, MAX_PENDING));
    assert b.header.gameTick == tick + 1;
  }

  // ---------- Attempt after attempt ----------

  datatype Try = Try(oracles: Oracles, clock: Clock, order: seq<Address>)

  /** The walk is one of this pool, and the clock or the period moves time on from this head. */
  predicate Timely(s: State, t: Try) {
    && (forall a :: a in t.order ==> a in s.pool.bySender)
    && s.head.Some? && (t.clock.now > s.head.value.timestamp || t.clock.period > 0)
  }

  /** Every one of these attempts is refused as an invalid header and leaves the state as it was. */
  ghost predicate AllRefused(rules: Rules, s: State, key: Key, tick: nat, tries: seq<Try>)
    requires forall t :: t in tries ==> Timely(s, t)
    decreases |tries|
  {
    |tries| == 0 || (
      Timely(s, tries[0]) &&
      var r := Produced(rules, tries[0].oracles, s, Some(key), tick, tries[0].clock, tries[0].order);
      && r.result == Err(Consensus(InvalidHeader)) && r.state == s && r.tick == tick + 1
      && AllRefused(rules, s, key, tick + 1, tries[1..]))
  }

  /**
   While the head stays, attempts are refused one after the other exactly as long as the tick does not
   meet the head's. So a producer that is behind fails once for each tick it lacks and is then in step;
   one that is ahead never gets a block past the checks.
   */
  lemma {:induction false} RefusedExactly(rules: Rules, s: State, key: Key, tick: nat, tries: seq<Try>)
    requires forall t :: t in tries ==> Timely(s, t)
    requires s.head.Some? && Recovers(rules.recover, key) && key.address in rules.validators
    ensures AllRefused(rules, s, key, tick, tries) <==>
      !(tick <= s.head.value.gameTick < tick + |tries|)
    decreases |tries|
  {
    if |tries| > 0 {
      var t := tries[0];
      assert t in tries && Timely(s, t);
      if tick == s.head.value.gameTick {
        InStepPasses(rules, s, key, tick, t);
      } else {
        OutOfStep(rules, t.oracles, s, key, tick, t.clock, t.order);
        RefusedExactly(rules, s, key, tick + 1, tries[1..]);
      }
    }
  }

  lemma InStepPasses(rules: Rules, s: State, key: Key, tick: nat, t: Try)
    requires Timely(s, t) && Recovers(rules.recover, key) && key.address in rules.validators
    requires tick == s.head.value.gameTick
    ensures Produced(rules, t.oracles, s, Some(key), tick, t.clock, t.order).result != Err(Consensus(InvalidHeader))
  {
    BuiltPassesExactly(rules, s.head.value, key, tick, t.clock, TxPool.Pending(s.pool, t.order, MAX_PENDING));
  }
}

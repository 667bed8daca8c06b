/**
 Rounds of block production. A pool can start when every sender's contiguous run starts at its account
 nonce, holds game actions and does not rise in price: then a round's receipts are all successful. It is
 steady when moreover no queue has a gap. Producing from a steady pool leaves a steady pool; so does
 submitting the next action at a price no higher than before.
 */
module PoolRounds {
  import opened Wrappers
  import opened OrderedKeys
  import opened Primitives
  import opened Poa
  import opened Storage
  import opened WorldState
  import opened Chain
  import opened TxPool
  import opened TxPoolOrder
  import opened Production
  import opened PoolToBlock
  import ChainRuns

  ghost predicate SteadyQueue(q: Queue, n: nat) {
    && (forall k :: k in q ==> n <= k && q[k].isGame && q[k].signer.Some?)
    && (forall i: nat, k :: k in q && n <= i <= k ==> i in q)
    && (forall i, k :: i in q && k in q && i < k ==> Price(q[i]) >= Price(q[k]))
  }

  ghost predicate Steady(p: Pool, m: Accounts) {
    forall a :: a in p.bySender ==> SteadyQueue(p.bySender[a], NonceOf(m, a))
  }

  /**
   Each run, whatever waits behind a gap, starts at the account nonce, is of game actions, and does not rise in price.
   */
  ghost predicate Startable(p: Pool, m: Accounts) {
    forall a :: a in p.bySender && p.bySender[a] != map[] ==>
      Least(p.bySender[a].Keys) == NonceOf(m, a) && PricesFall(RunOf(p.bySender[a])) && GameOnly(RunOf(p.bySender[a]))
  }

  ghost predicate GameOnly(txs: seq<Tx>) {
    forall i :: 0 <= i < |txs| ==> txs[i].isGame
  }

  // ---------- What is offered ----------

  lemma StartableRun(p: Pool, m: Accounts, a: Address)
    requires Valid(p) && Startable(p, m)
    ensures Consecutive(RunFor(p, a), NonceOf(m, a)) && PricesFall(RunFor(p, a)) && GameOnly(RunFor(p, a))
    ensures forall j :: 0 <= j < |RunFor(p, a)| ==> RunFor(p, a)[j].signer == Some(a)
  {
    if a in p.bySender {
      RunNonces(p, a);
    }
  }

  /** A steady pool can start. */
  lemma SteadyStartable(p: Pool, m: Accounts)
    requires Valid(p) && Steady(p, m)
    ensures Startable(p, m)
  {
    forall a | a in p.bySender && p.bySender[a] != map[]
      ensures Least(p.bySender[a].Keys) == NonceOf(m, a) && PricesFall(RunOf(p.bySender[a]))
          && GameOnly(RunOf(p.bySender[a]))
    {
      var q := p.bySender[a];
      var run := RunOf(q);
      assert SteadyQueue(q, NonceOf(m, a));
      SteadyStarts(q, NonceOf(m, a));
      SteadyRun(p, m, a);
      forall i | 0 <= i < |run|
        ensures run[i].isGame
      {
        assert At(q, NonceOf(m, a) + i) == Some(run[i]);
      }
    }
  }

  lemma SteadyRun(p: Pool, m: Accounts, a: Address)
    requires Valid(p) && Steady(p, m)
    ensures Consecutive(RunFor(p, a), NonceOf(m, a)) && PricesFall(RunFor(p, a))
    ensures IsRun(QueueOf(p, a), NonceOf(m, a), RunFor(p, a))
    ensures forall k :: k in QueueOf(p, a) ==> NonceOf(m, a) <= k < NonceOf(m, a) + |RunFor(p, a)|
  {
    if a in p.bySender {
      var q := p.bySender[a];
      assert SteadyQueue(q, NonceOf(m, a));
      SteadyStarts(q, NonceOf(m, a));
      RunNonces(p, a);
      SteadyWhole(q, NonceOf(m, a));
    }
  }

  /** The run of a steady queue is all of it. */
  lemma SteadyWhole(q: Queue, n: nat)
    requires SteadyQueue(q, n) && q != map[] && Least(q.Keys) == n
    ensures IsRun(q, n, RunOf(q)) && PricesFall(RunOf(q))
    ensures forall k :: k in q ==> n <= k < n + |RunOf(q)|
  {
    RunExactly(q);
    var run := RunOf(q);
    forall k | k in q
      ensures n <= k < n + |run|
    {
      assert n + |run| <= k ==> n + |run| in q;
    }
    forall i, j | 0 <= i < j < |run|
      ensures Price(run[i]) >= Price(run[j])
    {
      assert At(q, n + i) == Some(run[i]) && At(q, n + j) == Some(run[j]);
    }
  }

  lemma SteadyStarts(q: Queue, n: nat)
    requires SteadyQueue(q, n) && q != map[]
    ensures Least(q.Keys) == n
  {
    var k := Least(q.Keys);
    assert k in q && n <= k;
    assert n in q;
  }

  lemma {:induction false} CollectedFiled(p: Pool, order: seq<Address>, tx: Tx)
    requires Valid(p) && (forall a :: a in order ==> a in p.bySender) && tx in Collect(p.bySender, order)
    ensures Filed(p, tx)
    decreases |order|
  {
    var run := RunOf(p.bySender[order[0]]);
    if tx in run {
      InRun(p, order[0], tx);
    } else {
      CollectedFiled(p, order[1..], tx);
    }
  }

  lemma OfferedFiled(p: Pool, order: seq<Address>, max: nat, tx: Tx)
    requires Valid(p) && Listed(p, order) && tx in Pending(p, order, max)
    ensures Filed(p, tx)
  {
    SortKeeps(Collect(p.bySender, order), tx);
    CollectedFiled(p, order, tx);
  }

  ghost predicate IsPrefixOf<T>(s: seq<T>, t: seq<T>) { s <= t }

  /** Any first part of what such a pool offers is ready to be applied, and holds a nonce prefix of every sender. */
  lemma OfferedReady(p: Pool, m: Accounts, order: seq<Address>, max: nat, k: nat)
    requires Valid(p) && Startable(p, m) && Listed(p, order) && k <= |Pending(p, order, max)|
    ensures Ready(m, Pending(p, order, max)[..k]) && AllGame(Pending(p, order, max)[..k])
    ensures forall a: Address :: IsPrefixOf(By(Pending(p, order, max)[..k], a), RunFor(p, a))
  {
    var selected := Pending(p, order, max)[..k];
    forall a: Address
      ensures IsPrefixOf(By(selected, a), RunFor(p, a)) && Consecutive(By(selected, a), NonceOf(m, a))
    {
      OfferedPrefix(p, m, order, max, k, a);
    }
    AllFiled(p, order, max, k);
    PrefixesGame(p, m, selected);
  }

  lemma {:induction false} OfferedPrefix(p: Pool, m: Accounts, order: seq<Address>, max: nat, k: nat, a: Address)
    requires Valid(p) && Startable(p, m) && Listed(p, order) && k <= |Pending(p, order, max)|
    ensures By(Pending(p, order, max)[..k], a) <= RunFor(p, a)
    ensures Consecutive(By(Pending(p, order, max)[..k], a), NonceOf(m, a))
  {
    StartableRun(p, m, a);
    PendingIsPrefix(p, order, max, a);
    ByPrefix(Pending(p, order, max), k, a);
  }

  lemma {:induction false} PrefixesGame(p: Pool, m: Accounts, txs: seq<Tx>)
    requires Valid(p) && Startable(p, m) && forall t :: t in txs ==> Filed(p, t)
    requires forall a: Address :: IsPrefixOf(By(txs, a), RunFor(p, a))
    ensures AllGame(txs)
  {
    forall i | 0 <= i < |txs|
      ensures txs[i].isGame && txs[i].signer.Some?
    {
      assert Filed(p, txs[i]);
      OfferedGame(p, m, txs, i, txs[i].signer.value);
    }
  }

  lemma {:induction false} OfferedGame(p: Pool, m: Accounts, txs: seq<Tx>, i: nat, a: Address)
    requires Valid(p) && Startable(p, m) && IsPrefixOf(By(txs, a), RunFor(p, a))
    requires i < |txs| && txs[i].signer == Some(a)
    ensures txs[i].isGame
  {
    StartableRun(p, m, a);
    ByIn(txs, a, txs[i]);
    var j :| 0 <= j < |By(txs, a)| && By(txs, a)[j] == txs[i];
    assert RunFor(p, a)[j] == txs[i];
  }

  // ---------- What is left in the pool ----------

  lemma {:induction false} RemoveAllKeepsOthers(p: Pool, hashes: seq<TxHash>)
    requires Valid(p)
    ensures forall h :: h in RemoveAll(p, hashes).byHash ==>
      h in p.byHash && RemoveAll(p, hashes).byHash[h] == p.byHash[h]
    decreases |hashes|
  {
    if hashes != [] {
      RemoveKeepsValid(p, hashes[0]);
      RemoveAllKeepsOthers(Remove(p, hashes[0]), hashes[1..]);
    }
  }

  /** Exactly the transactions of the block go. */
  lemma {:induction false} LeftExactly(p: Pool, txs: seq<Tx>, tx: Tx)
    requires Valid(p) && forall t :: t in txs ==> Filed(p, t)
    ensures Valid(RemoveAll(p, HashesOf(txs)))
    ensures Filed(RemoveAll(p, HashesOf(txs)), tx) <==> Filed(p, tx) && tx !in txs
  {
    RemoveAllKeepsValid(p, HashesOf(txs));
    RemoveAllKeepsOthers(p, HashesOf(txs));
    if Filed(p, tx) { HashTaken(p, txs, tx); }
    FiledByHash(p, tx);
    FiledByHash(RemoveAll(p, HashesOf(txs)), tx);
  }

  lemma HashTaken(p: Pool, txs: seq<Tx>, tx: Tx)
    requires Valid(p) && Filed(p, tx) && forall t :: t in txs ==> Filed(p, t)
    ensures tx.hash in HashesOf(txs) <==> tx in txs
  {
    var hashes := HashesOf(txs);
    FiledByHash(p, tx);
    forall i | 0 <= i < |txs|
      ensures hashes[i] == tx.hash <==> txs[i] == tx
    {
      assert txs[i] in txs;
      FiledByHash(p, txs[i]);
    }
    assert tx in txs ==> exists i :: 0 <= i < |txs| && txs[i] == tx && hashes[i] == tx.hash;
  }

  lemma FiledByHash(p: Pool, tx: Tx)
    requires Valid(p)
    ensures Filed(p, tx) <==> tx.hash in p.byHash && p.byHash[tx.hash] == tx
  {}

  /** A filed action is in the block exactly when its nonce is among the first ones of its sender. */
  lemma {:induction false} TakenExactly(p: Pool, m: Accounts, txs: seq<Tx>, a: Address, tx: Tx)
    requires Valid(p) && Steady(p, m) && IsPrefixOf(By(txs, a), RunFor(p, a)) && tx.signer == Some(a) && Filed(p, tx)
    ensures tx in txs <==> tx.nonce < NonceOf(m, a) + |By(txs, a)|
  {
    SteadyRun(p, m, a);
    ByIn(txs, a, tx);
    var run := RunFor(p, a);
    var taken := By(txs, a);
    var q := QueueOf(p, a);
    assert tx.nonce in q && q[tx.nonce] == tx;
    var j := tx.nonce - NonceOf(m, a);
    assert At(q, NonceOf(m, a) + j) == Some(run[j]);
    if tx in taken {
      var i :| 0 <= i < |taken| && taken[i] == tx;
      assert taken[i] == run[i];
      assert run[i].nonce == NonceOf(m, a) + i;
    }
    if j < |taken| {
      assert taken[j] == run[j] == tx;
    }
  }

  ghost predicate Advanced(m: Accounts, m': Accounts, txs: seq<Tx>) {
    forall a: Address :: NonceOf(m', a) == NonceOf(m, a) + |By(txs, a)|
  }

  lemma {:induction false} QueueLeft(p: Pool, m: Accounts, txs: seq<Tx>, a: Address, k: nat)
    requires Valid(p) && Steady(p, m) && IsPrefixOf(By(txs, a), RunFor(p, a)) && forall t :: t in txs ==> Filed(p, t)
    ensures Valid(RemoveAll(p, HashesOf(txs)))
    ensures At(QueueOf(RemoveAll(p, HashesOf(txs)), a), k)
         == if k < NonceOf(m, a) + |By(txs, a)| then None else At(QueueOf(p, a), k)
  {
    var q := RemoveAll(p, HashesOf(txs));
    RemoveAllKeepsValid(p, HashesOf(txs));
    if k in QueueOf(p, a) {
      var tx := QueueOf(p, a)[k];
      assert tx.signer == Some(a) && tx.nonce == k && Filed(p, tx);
      LeftExactly(p, txs, tx);
      TakenExactly(p, m, txs, a, tx);
    }
    if k in QueueOf(q, a) {
      var tx := QueueOf(q, a)[k];
      assert tx.signer == Some(a) && tx.nonce == k && Filed(q, tx);
      LeftExactly(p, txs, tx);
      TakenExactly(p, m, txs, a, tx);
    }
  }

  lemma {:induction false} StillSteady(p: Pool, m: Accounts, m': Accounts, txs: seq<Tx>)
    requires Valid(p) && Steady(p, m) && Advanced(m, m', txs) && forall t :: t in txs ==> Filed(p, t)
    requires forall a: Address :: IsPrefixOf(By(txs, a), RunFor(p, a))
    ensures Steady(RemoveAll(p, HashesOf(txs)), m')
  {
    var left := RemoveAll(p, HashesOf(txs));
    forall a | a in left.bySender
      ensures SteadyQueue(left.bySender[a], NonceOf(m', a))
    {
      var q := QueueOf(p, a);
      var n := NonceOf(m, a);
      var c := |By(txs, a)|;
      assert IsPrefixOf(By(txs, a), RunFor(p, a));
      forall k: nat
        ensures At(left.bySender[a], k) == if k < n + c then None else At(q, k)
      {
        QueueLeft(p, m, txs, a, k);
      }
      assert a in p.bySender ==> SteadyQueue(q, n);
      SteadyTail(q, left.bySender[a], n, n + c);
    }
  }

  lemma SteadyTail(q: Queue, r: Queue, n: nat, from: nat)
    requires SteadyQueue(q, n) && n <= from
    requires forall k: nat {:trigger At(r, k)} :: At(r, k) == if k < from then None else At(q, k)
    ensures SteadyQueue(r, from)
  {
    forall k: nat
      ensures k in r <==> k in q && k >= from
      ensures k in r ==> r[k] == q[k]
    {
      assert At(r, k) == if k < from then None else At(q, k);
    }
  }

  // ---------- Receipts ----------

  lemma {:induction false} LaterReceipt(m: map<TxHash, Receipt>, rs: seq<Receipt>, h: TxHash)
    ensures h in WithReceipts(m, rs) <==> h in m || exists i :: 0 <= i < |rs| && rs[i].txHash == h
    ensures (exists i :: 0 <= i < |rs| && rs[i].txHash == h) ==>
      WithReceipts(m, rs)[h] in rs && WithReceipts(m, rs)[h].txHash == h
    ensures !(exists i :: 0 <= i < |rs| && rs[i].txHash == h) && h in m ==> WithReceipts(m, rs)[h] == m[h]
    decreases |rs|
  {
    if rs != [] {
      var m1 := m[rs[0].txHash := rs[0]];
      LaterReceipt(m1, rs[1..], h);
      assert rs == [rs[0]] + rs[1..];
      assert (exists i :: 0 <= i < |rs[1..]| && rs[1..][i].txHash == h) ==>
          exists i :: 0 <= i < |rs| && rs[i].txHash == h by {
        if i :| 0 <= i < |rs[1..]| && rs[1..][i].txHash == h {
          assert rs[i + 1].txHash == h;
        }
      }
      if i :| 0 <= i < |rs| && rs[i].txHash == h && i > 0 {
        assert rs[1..][i - 1].txHash == h;
      }
    }
  }

  /** Every transaction of the block has a stored receipt that says it succeeded in this block. */
  ghost predicate Succeeded(s: State, b: Block) {
    forall i :: 0 <= i < |b.txs| ==>
      var h := b.txs[i].hash;
      h in s.receipts && s.receipts[h].success && s.receipts[h].blockHash == HashOf(b.header)
  }

  lemma {:induction false} StoredSucceed(m: map<TxHash, Receipt>, b: Block, rs: seq<Receipt>)
    requires |rs| == |b.txs| && AllSucceed(rs) && forall i :: 0 <= i < |rs| ==> rs[i].txHash == b.txs[i].hash
    ensures forall i :: 0 <= i < |b.txs| ==>
      var h := b.txs[i].hash; var r := WithReceipts(m, Stamped(rs, HashOf(b.header)));
      h in r && r[h].success && r[h].blockHash == HashOf(b.header)
  {
    var stamped := Stamped(rs, HashOf(b.header));
    forall i | 0 <= i < |b.txs|
      ensures var h := b.txs[i].hash; var r := WithReceipts(m, stamped);
        h in r && r[h].success && r[h].blockHash == HashOf(b.header)
    {
      assert stamped[i].txHash == b.txs[i].hash;
      LaterReceipt(m, stamped, b.txs[i].hash);
    }
  }

  // ---------- A block of game actions ----------

  lemma {:induction false} NoEvm(txs: seq<Tx>)
    requires AllGame(txs)
    ensures EvmOf(txs) == [] && ActionsOf(txs).Some?
  {
    if txs != [] {
      NoEvm(txs[1..]);
    }
  }

  lemma {:induction false} ProcessedGame(o: Oracles, m: Accounts, txs: seq<Tx>, actions: nat, number: nat)
    requires AllGame(txs)
    ensures Processed(o, m, txs, actions, number) ==
        GamePhase(Progress(m, [], FlatGas(actions), [], false), txs, number)
  {
    NoEvm(txs);
  }

  /**
   A ready block of game actions that passes the checks is applied, all its receipts say success, and the nonces
   advance.
   */
  lemma AppliedGame(rules: Rules, o: Oracles, s: State, b: Block)
    requires s.head.Some? && VerifyBlock(rules.recover, rules.validators, b, s.head.value).None?
    requires AllGame(b.txs) && Ready(s.accounts, b.txs)
    requires o.tick(ActionsFor(b.txs))
    ensures var out := Apply(rules, o, s, b);
      && out.error.None? && Succeeded(out.state, b) && Advanced(s.accounts, out.state.accounts, b.txs)
      && out.state.head == Some(b.header) && out.state.pool == RemoveAll(s.pool, HashesOf(b.txs))
  {
    NoEvm(b.txs);
    var actions := ActionsOf(b.txs).value;
    var start := Progress(s.accounts, [], FlatGas(|actions|), [], false);
    var number := b.header.number;
    ProcessedGame(o, s.accounts, b.txs, |actions|, number);
    var pr := GamePhase(start, b.txs, number);
    GameReceipts(start, b.txs, number);
    AllSucceedExactly(start, b.txs, number);
    forall i | 0 <= i < |pr.receipts|
      ensures pr.receipts[i].success && pr.receipts[i].txHash == b.txs[i].hash
    {
      assert IsGameReceipt(pr.receipts[0 + i], b.txs[i], number, 0 + i, start.gas + FlatGas(i + 1));
    }
    StoredSucceed(s.receipts, b, pr.receipts);
  }

  function ActionsFor(txs: seq<Tx>): seq<Action> {
    if ActionsOf(txs).Some? then ActionsOf(txs).value else []
  }

  // ---------- A round ----------

  /** The producer is in step with the head, and the pool can start. */
  ghost predicate InStep(s: State, tick: nat) {
    s.head.Some? && s.head.value.gameTick == tick && Valid(s.pool) && Startable(s.pool, s.accounts)
  }

  ghost predicate IsRound(rules: Rules, o: Oracles, s: State, key: Key, c: Clock, order: seq<Address>) {
    && Recovers(rules.recover, key) && key.address in rules.validators && Listed(s.pool, order)
    && s.head.Some? && (c.now > s.head.value.timestamp || c.period > 0)
    && o.tick(ActionsFor(Selected(s.pool, order)))
  }

  function Selected(p: Pool, order: seq<Address>): seq<Tx>
    requires forall a :: a in order ==> a in p.bySender
  {
    var pending := Pending(p, order, MAX_PENDING);
    pending[..Chosen(pending, BLOCK_GAS_LIMIT, 0)]
  }

  /**
   In step, an attempt succeeds: within the gas limit, every chosen action has a success receipt, every
   sender's nonce advances by its number of actions, and the producer is in step with the new head.
   */
  lemma RoundSucceeds(rules: Rules, o: Oracles, s: State, key: Key, tick: nat, c: Clock, order: seq<Address>)
    requires InStep(s, tick) && IsRound(rules, o, s, key, c, order)
    ensures var r := Produced(rules, o, s, Some(key), tick, c, order);
      && r.result.Ok?
      && var b := r.result.value;
      && GasSum(b.txs) <= BLOCK_GAS_LIMIT && b.txs == Selected(s.pool, order)
      && Succeeded(r.state, b) && Advanced(s.accounts, r.state.accounts, b.txs)
      && r.state.head == Some(b.header) && b.header.gameTick == r.tick
      && r.state.pool == RemoveAll(s.pool, HashesOf(b.txs))
  {
    var pending := Pending(s.pool, order, MAX_PENDING);
    var b := Built(s.head.value, key, tick + 1, c, pending);
    var k := Chosen(pending, BLOCK_GAS_LIMIT, 0);
    assert b.txs == pending[..k] == Selected(s.pool, order);
    BuiltPassesExactly(rules, s.head.value, key, tick, c, pending);
    ChosenExactly(pending, BLOCK_GAS_LIMIT, 0, k);
    OfferedReady(s.pool, s.accounts, order, MAX_PENDING, k);
    AppliedGame(rules, o, s, b);
    assert b.header.gameTick == tick + 1;
  }

  /** The block takes exactly a nonce prefix of every sender. */
  lemma {:induction false} RoundTakesPrefixes(s: State, tick: nat, order: seq<Address>, a: Address)
    requires InStep(s, tick) && Listed(s.pool, order)
    ensures By(Selected(s.pool, order), a) <= RunFor(s.pool, a)
  {
    OfferedReady(s.pool, s.accounts, order, MAX_PENDING, |Selected(s.pool, order)|);
    assert IsPrefixOf(By(Selected(s.pool, order), a), RunFor(s.pool, a));
  }

  /** From a steady pool the round leaves a steady pool. */
  lemma RoundKeepsSteady(rules: Rules, o: Oracles, s: State, key: Key, tick: nat, c: Clock, order: seq<Address>)
    requires InStep(s, tick) && IsRound(rules, o, s, key, c, order) && Steady(s.pool, s.accounts)
    ensures var r := Produced(rules, o, s, Some(key), tick, c, order);
      InStep(r.state, r.tick) && Steady(r.state.pool, r.state.accounts)
  {
    var r := Produced(rules, o, s, Some(key), tick, c, order);
    RoundSucceeds(rules, o, s, key, tick, c, order);
    var txs := Selected(s.pool, order);
    OfferedReady(s.pool, s.accounts, order, MAX_PENDING, |txs|);
    AllFiled(s.pool, order, MAX_PENDING, |txs|);
    StillSteady(s.pool, s.accounts, r.state.accounts, txs);
    RemoveAllKeepsValid(s.pool, HashesOf(txs));
    SteadyStartable(r.state.pool, r.state.accounts);
  }

  lemma AllFiled(p: Pool, order: seq<Address>, max: nat, k: nat)
    requires Valid(p) && Listed(p, order) && k <= |Pending(p, order, max)|
    ensures forall t :: t in Pending(p, order, max)[..k] ==> Filed(p, t)
  {
    forall t | t in Pending(p, order, max)[..k]
      ensures Filed(p, t)
    {
      OfferedFiled(p, order, max, t);
    }
  }

  // ---------- Submitting ----------

  /** The nonce a client is told to use next, with the account nonce when nothing is pending. */
  function NextNonce(p: Pool, m: Accounts, a: Address): nat {
    var pending := PendingNonce(p, a);
    if pending.Some? then pending.value else NonceOf(m, a)
  }

  ghost predicate Continues(p: Pool, m: Accounts, tx: Tx) {
    tx.isGame && tx.signer.Some? && tx.nonce == NextNonce(p, m, tx.signer.value)
    && forall k :: k in QueueOf(p, tx.signer.value) ==> Price(QueueOf(p, tx.signer.value)[k]) >= Price(tx)
  }

  lemma SteadyGrows(q: Queue, n: nat, tx: Tx)
    requires SteadyQueue(q, n) && tx.isGame && tx.signer.Some?
    requires tx.nonce == if q == map[] then n else GreatestOr0(q.Keys) + 1
    requires forall k :: k in q ==> Price(q[k]) >= Price(tx)
    ensures SteadyQueue(q[tx.nonce := tx], n)
  {
    if q != map[] {
      assert GreatestOr0(q.Keys) in q;
    }
  }

  /** Submitting the next action of a sender, no dearer than before, keeps the pool steady. */
  lemma SubmitKeepsSteady(p: Pool, m: Accounts, tx: Tx)
    requires Valid(p) && Steady(p, m) && Continues(p, m, tx)
    ensures Valid(Add(p, tx)) && Steady(Add(p, tx), m)
  {
    AddKeepsValid(p, tx);
    if AddError(p, tx).None? {
      OwnQueueSteady(p, m, tx);
      OtherQueuesSame(p, m, tx);
    }
  }

  lemma OwnQueueSteady(p: Pool, m: Accounts, tx: Tx)
    requires Steady(p, m) && Continues(p, m, tx) && AddError(p, tx).None?
    ensures var a := tx.signer.value; a in Add(p, tx).bySender && SteadyQueue(Add(p, tx).bySender[a], NonceOf(m, a))
  {
    var a := tx.signer.value;
    assert SteadyQueue(QueueOf(p, a), NonceOf(m, a));
    SteadyGrows(QueueOf(p, a), NonceOf(m, a), tx);
  }

  lemma OtherQueuesSame(p: Pool, m: Accounts, tx: Tx)
    requires Steady(p, m) && AddError(p, tx).None?
    ensures forall a :: a in Add(p, tx).bySender && a != tx.signer.value ==>
        SteadyQueue(Add(p, tx).bySender[a], NonceOf(m, a))
  {}

  // ---------- Any number of rounds ----------

  datatype Turn = Submit(tx: Tx) | Round(oracles: Oracles, clock: Clock, order: seq<Address>)

  ghost predicate Fair(rules: Rules, s: State, key: Key, t: Turn) {
    match t
    case Submit(tx) => Continues(s.pool, s.accounts, tx)
    case Round(o, c, order) => IsRound(rules, o, s, key, c, order)
  }

  /** What a turn leaves: the state, the tick, and for a round the block or the error. */
  datatype TurnResult = TurnResult(state: State, tick: nat, result: Option<Result<Block, NodeError>>)

  function Taken(rules: Rules, s: State, key: Key, tick: nat, t: Turn): TurnResult {
    match t
    case Submit(tx) => TurnResult(s.(pool := Add(s.pool, tx)), tick, None)
    case Round(o, c, order) =>
      if forall a :: a in order ==> a in s.pool.bySender then
        var r := Produced(rules, o, s, Some(key), tick, c, order);
        TurnResult(r.state, r.tick, Some(r.result))
      else TurnResult(s, tick, None)
  }

  /** Every turn is fair when it comes. */
  ghost predicate AllFair(rules: Rules, s: State, key: Key, tick: nat, ts: seq<Turn>)
    decreases |ts|
  {
    |ts| == 0 || (Fair(rules, s, key, ts[0])
                  && var r := Taken(rules, s, key, tick, ts[0]); AllFair(rules, r.state, key, r.tick, ts[1..]))
  }

  /** A round's block was applied with only successful receipts, and the nonces have advanced. */
  ghost predicate Good(s: State, t: Turn, r: TurnResult) {
    t.Round? ==> r.result.Some? && r.result.value.Ok?
                 && var b := r.result.value.value;
                 Succeeded(r.state, b) && Advanced(s.accounts, r.state.accounts, b.txs)
  }

  ghost predicate AllApplied(rules: Rules, s: State, key: Key, tick: nat, ts: seq<Turn>)
    decreases |ts|
  {
    |ts| == 0 || (
      var r := Taken(rules, s, key, tick, ts[0]);
      Good(s, ts[0], r) && AllApplied(rules, r.state, key, r.tick, ts[1..]))
  }

  lemma TurnSucceeds(rules: Rules, s: State, key: Key, tick: nat, t: Turn)
    requires InStep(s, tick) && Steady(s.pool, s.accounts) && Fair(rules, s, key, t)
    ensures var r := Taken(rules, s, key, tick, t);
      Good(s, t, r) && InStep(r.state, r.tick) && Steady(r.state.pool, r.state.accounts)
  {
    match t
    case Submit(tx) =>
      SubmitKeepsSteady(s.pool, s.accounts, tx);
      SteadyStartable(Add(s.pool, tx), s.accounts);
    case Round(o, c, order) =>
      RoundSucceeds(rules, o, s, key, tick, c, order);
      RoundKeepsSteady(rules, o, s, key, tick, c, order);
  }

  /** However submissions and rounds alternate, every round succeeds with every action in it. */
  lemma {:induction false} EveryRoundSucceeds(rules: Rules, s: State, key: Key, tick: nat, ts: seq<Turn>)
    requires InStep(s, tick) && Steady(s.pool, s.accounts) && AllFair(rules, s, key, tick, ts)
    ensures AllApplied(rules, s, key, tick, ts)
    decreases |ts|
  {
    if |ts| > 0 {
      TurnSucceeds(rules, s, key, tick, ts[0]);
      var r := Taken(rules, s, key, tick, ts[0]);
      EveryRoundSucceeds(rules, r.state, key, r.tick, ts[1..]);
    }
  }

  /** In particular from genesis, whatever the accounts, with a producer that starts together with the chain. */
  lemma {:induction false} EveryRoundFromGenesis(rules: Rules, g: Header, accounts: Accounts, maxPool: nat, key: Key,
      ts: seq<Turn>)
    requires ChainRuns.IsGenesis(g) && AllFair(rules, ChainRuns.Start(g, accounts, maxPool), key, 0, ts)
    ensures AllApplied(rules, ChainRuns.Start(g, accounts, maxPool), key, 0, ts)
  {
    EveryRoundSucceeds(rules, ChainRuns.Start(g, accounts, maxPool), key, 0, ts);
  }
}

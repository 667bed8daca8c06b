/**
 The transaction pool: two indexes over the same transactions, and the list offered to block
 production: contiguous nonce runs, stably sorted by price and then nonce, cut off at a maximum.
 */
module TxPool {
  import opened Wrappers
  import opened OrderedKeys
  import opened Primitives

  type Queue = map<nat, Tx>

  datatype Pool = Pool(byHash: map<TxHash, Tx>, bySender: map<Address, Queue>, maxSize: nat)

  datatype PoolError = AlreadyExists | PoolFull | InvalidSignature | NonceUsed

  function Empty(maxSize: nat): Pool { Pool(map[], map[], maxSize) }

  function QueueOf(p: Pool, a: Address): Queue {
    if a in p.bySender then p.bySender[a] else map[]
  }

  function AddError(p: Pool, tx: Tx): Option<PoolError> {
    if tx.hash in p.byHash then Some(AlreadyExists)
    else if |p.byHash| >= p.maxSize then Some(PoolFull)
    else if tx.signer.None? then Some(InvalidSignature)
    else if tx.nonce in QueueOf(p, tx.signer.value) then Some(NonceUsed)
    else None
  }

  function Add(p: Pool, tx: Tx): Pool {
    if AddError(p, tx).Some? then p
    else
      var a := tx.signer.value;
      p.(byHash := p.byHash[tx.hash := tx], bySender := p.bySender[a := QueueOf(p, a)[tx.nonce := tx]])
  }

  function AddAll(p: Pool, txs: seq<Tx>): Pool
    decreases |txs|
  {
    if txs == [] then p else AddAll(Add(p, txs[0]), txs[1..])
  }

  /** Take the nonce out of the sender's queue; an empty queue goes altogether. */
  function Unqueue(bySender: map<Address, Queue>, a: Address, nonce: nat): map<Address, Queue> {
    if a !in bySender then bySender
    else if bySender[a] - {nonce} == map[] then bySender - {a}
    else bySender[a := bySender[a] - {nonce}]
  }

  function Remove(p: Pool, hash: TxHash): Pool {
    if hash !in p.byHash then p
    else
      var tx := p.byHash[hash];
      p.(byHash := p.byHash - {hash},
         bySender := if tx.signer.Some? then Unqueue(p.bySender, tx.signer.value, tx.nonce) else p.bySender)
  }

  function RemoveAll(p: Pool, hashes: seq<TxHash>): Pool
    decreases |hashes|
  {
    if hashes == [] then p else RemoveAll(Remove(p, hashes[0]), hashes[1..])
  }

  // ---------- Pending transactions ----------

  /** The queued transactions with nonces `n`, `n + 1`, ... up to the first one missing. */
  function From(q: Queue, n: nat): seq<Tx>
    decreases GreatestOr0(q.Keys) + 1 - n
  {
    if n in q then [q[n]] + From(q, n + 1) else []
  }

  /** The transactions of a queue from its lowest nonce up to the first gap. */
  function RunOf(q: Queue): seq<Tx> {
    if q == map[] then [] else From(q, Least(q.Keys))
  }

  function Collect(bySender: map<Address, Queue>, order: seq<Address>): seq<Tx>
    requires forall a :: a in order ==> a in bySender
    decreases |order|
  {
    if order == [] then [] else RunOf(bySender[order[0]]) + Collect(bySender, order[1..])
  }

  function Price(tx: Tx): nat {
    if tx.gasPrice.Some? then tx.gasPrice.value else 0
  }

  /** `a` may stand before `b`: a higher price, or the same price and no higher nonce. */
  predicate Before(a: Tx, b: Tx) {
    Price(a) > Price(b) || (Price(a) == Price(b) && a.nonce <= b.nonce)
  }

  function Insert(x: Tx, s: seq<Tx>): seq<Tx> {
    if s == [] then [x] else if Before(x, s[0]) then [x] + s else [s[0]] + Insert(x, s[1..])
  }

  /** The standard library's stable sort. */
  function Sort(s: seq<Tx>): seq<Tx> {
    if s == [] then [] else Insert(s[0], Sort(s[1..]))
  }

  function Cut<T>(s: seq<T>, n: nat): (r: seq<T>)
    ensures r <= s && |r| <= n
    ensures n >= |s| ==> r == s
  {
    if n <= |s| then s[..n] else s
  }

  /** What `get_pending` returns when the sender map is walked in this order. */
  function Pending(p: Pool, order: seq<Address>, max: nat): seq<Tx>
    requires forall a :: a in order ==> a in p.bySender
  {
    Cut(Sort(Collect(p.bySender, order)), max)
  }

  function PendingNonce(p: Pool, a: Address): Option<nat> {
    if a in p.bySender && p.bySender[a] != map[] then Some(GreatestOr0(p.bySender[a].Keys) + 1) else None
  }

  // ---------- The two indexes ----------

  ghost predicate Filed(p: Pool, tx: Tx) {
    tx.signer.Some? && tx.signer.value in p.bySender && tx.nonce in p.bySender[tx.signer.value]
    && p.bySender[tx.signer.value][tx.nonce] == tx
  }

  ghost predicate HashesSound(p: Pool) {
    forall h :: h in p.byHash ==> p.byHash[h].hash == h && Filed(p, p.byHash[h])
  }

  ghost predicate QueuesSound(p: Pool) {
    forall a, n :: a in p.bySender && n in p.bySender[a] ==>
      var tx := p.bySender[a][n];
      tx.signer == Some(a) && tx.nonce == n && tx.hash in p.byHash && p.byHash[tx.hash] == tx
  }

  /** A transaction is filed under its hash exactly when it is filed under its sender and nonce. */
  ghost predicate Valid(p: Pool) {
    && |p.byHash| <= p.maxSize
    && HashesSound(p)
    && (forall a :: a in p.bySender ==> p.bySender[a] != map[])
    && QueuesSound(p)
  }

  lemma AddKeepsHashes(p: Pool, tx: Tx)
    requires Valid(p) && AddError(p, tx).None?
    ensures HashesSound(Add(p, tx)) && Filed(Add(p, tx), tx)
  {
    var q := Add(p, tx);
    forall h | h in q.byHash
      ensures q.byHash[h].hash == h && Filed(q, q.byHash[h])
    {
      assert h != tx.hash ==> h in p.byHash && Filed(p, p.byHash[h]);
    }
  }

  lemma AddKeepsQueues(p: Pool, tx: Tx)
    requires Valid(p) && AddError(p, tx).None?
    ensures QueuesSound(Add(p, tx))
  {
    var q := Add(p, tx);
    forall a, n | a in q.bySender && n in q.bySender[a]
      ensures var t := q.bySender[a][n];
        t.signer == Some(a) && t.nonce == n && t.hash in q.byHash && q.byHash[t.hash] == t
    {
      assert q.bySender[a][n] == tx || (a in p.bySender && n in p.bySender[a] && p.bySender[a][n] == q.bySender[a][n]);
    }
  }

  lemma AddKeepsSize(p: Pool, tx: Tx)
    requires |p.byHash| <= p.maxSize
    requires forall a :: a in p.bySender ==> p.bySender[a] != map[]
    ensures |Add(p, tx).byHash| <= p.maxSize == Add(p, tx).maxSize
    ensures forall a :: a in Add(p, tx).bySender ==> Add(p, tx).bySender[a] != map[]
  {
    var q := Add(p, tx);
    if AddError(p, tx).None? {
      assert q.byHash.Keys == p.byHash.Keys + {tx.hash};
      assert |q.byHash.Keys| == |p.byHash.Keys| + 1;
      assert |p.byHash| == |p.byHash.Keys| && |q.byHash| == |q.byHash.Keys|;
      assert tx.nonce in q.bySender[tx.signer.value];
    }
  }

  lemma AddKeepsValid(p: Pool, tx: Tx)
    requires Valid(p)
    ensures Valid(Add(p, tx))
  {
    AddKeepsSize(p, tx);
    if AddError(p, tx).None? {
      AddKeepsHashes(p, tx);
      AddKeepsQueues(p, tx);
    }
  }

  /** `Unqueue` takes exactly one place out of the sender index. */
  lemma UnqueueExactly(m: map<Address, Queue>, a: Address, nonce: nat, b: Address, n: nat)
    requires forall c :: c in m ==> m[c] != map[]
    ensures var u := Unqueue(m, a, nonce);
      && (b in u && n in u[b] <==> b in m && n in m[b] && (b, n) != (a, nonce))
      && (b in u && n in u[b] ==> u[b][n] == m[b][n])
      && (b in u ==> u[b] != map[])
  {
    if a in m {
      assert n in m[a] && n != nonce ==> n in m[a] - {nonce};
    }
  }

  lemma RemoveKeepsHashes(p: Pool, hash: TxHash)
    requires Valid(p) && hash in p.byHash
    ensures HashesSound(Remove(p, hash))
  {
    var q := Remove(p, hash);
    var tx := p.byHash[hash];
    assert Filed(p, tx);
    forall h | h in q.byHash
      ensures q.byHash[h].hash == h && Filed(q, q.byHash[h])
    {
      var other := p.byHash[h];
      assert h != hash && Filed(p, other);
      UnqueueExactly(p.bySender, tx.signer.value, tx.nonce, other.signer.value, other.nonce);
    }
  }

  lemma RemoveKeepsQueues(p: Pool, hash: TxHash)
    requires Valid(p) && hash in p.byHash
    ensures QueuesSound(Remove(p, hash))
    ensures forall a :: a in Remove(p, hash).bySender ==> Remove(p, hash).bySender[a] != map[]
  {
    var q := Remove(p, hash);
    var tx := p.byHash[hash];
    assert Filed(p, tx);
    forall a, n | a in q.bySender && n in q.bySender[a]
      ensures var t := q.bySender[a][n];
        t.signer == Some(a) && t.nonce == n && t.hash in q.byHash && q.byHash[t.hash] == t
    {
      UnqueueExactly(p.bySender, tx.signer.value, tx.nonce, a, n);
    }
    forall a | a in q.bySender
      ensures q.bySender[a] != map[]
    {
      UnqueueExactly(p.bySender, tx.signer.value, tx.nonce, a, 0);
    }
  }

  lemma RemoveKeepsValid(p: Pool, hash: TxHash)
    requires Valid(p)
    ensures Valid(Remove(p, hash)) && Remove(p, hash).byHash == p.byHash - {hash}
  {
    if hash in p.byHash {
      RemoveKeepsHashes(p, hash);
      RemoveKeepsQueues(p, hash);
      assert Remove(p, hash).byHash.Keys == p.byHash.Keys - {hash};
      SubsetSize(Remove(p, hash).byHash.Keys, p.byHash.Keys);
    }
  }

  lemma UnqueueQueued(m: map<Address, Queue>, a: Address, tx: Tx)
    requires forall c :: c in m ==> m[c] != map[]
    requires a in m ==> tx.nonce !in m[a]
    ensures Unqueue(m[a := (if a in m then m[a] else map[])[tx.nonce := tx]], a, tx.nonce) == m
  {
    var queue := if a in m then m[a] else map[];
    assert queue[tx.nonce := tx] - {tx.nonce} == queue;
    if a !in m {
      assert m[a := queue[tx.nonce := tx]] - {a} == m;
    }
  }

  /** Adding a transaction and removing it again gives back the pool. */
  lemma AddRemove(p: Pool, tx: Tx)
    requires Valid(p) && AddError(p, tx).None?
    ensures Remove(Add(p, tx), tx.hash) == p
  {
    assert Add(p, tx).byHash - {tx.hash} == p.byHash;
    UnqueueQueued(p.bySender, tx.signer.value, tx);
  }

  // ---------- Runs ----------

  datatype Event = Added(tx: Tx) | Removed(hash: TxHash) | Included(hashes: seq<TxHash>)

  function Step(p: Pool, e: Event): Pool {
    match e
    case Added(tx) => Add(p, tx)
    case Removed(hash) => Remove(p, hash)
    case Included(hashes) => RemoveAll(p, hashes)
  }

  function Run(p: Pool, es: seq<Event>): Pool
    decreases |es|
  {
    if es == [] then p else Run(Step(p, es[0]), es[1..])
  }

  lemma {:induction false} RemoveAllKeepsValid(p: Pool, hashes: seq<TxHash>)
    requires Valid(p)
    ensures Valid(RemoveAll(p, hashes))
    ensures forall h :: h in RemoveAll(p, hashes).byHash <==> h in p.byHash && h !in hashes
    decreases |hashes|
  {
    if hashes != [] {
      RemoveKeepsValid(p, hashes[0]);
      RemoveAllKeepsValid(Remove(p, hashes[0]), hashes[1..]);
      assert hashes == [hashes[0]] + hashes[1..];
    }
  }

  lemma StepKeepsValid(p: Pool, e: Event)
    requires Valid(p)
    ensures Valid(Step(p, e))
  {
    if e.Added? {
      AddKeepsValid(p, e.tx);
    } else if e.Removed? {
      RemoveKeepsValid(p, e.hash);
    } else {
      RemoveAllKeepsValid(p, e.hashes);
    }
  }

  lemma {:induction false} RunKeepsValid(p: Pool, es: seq<Event>)
    requires Valid(p)
    ensures Valid(Run(p, es))
    decreases |es|
  {
    if es != [] {
      StepKeepsValid(p, es[0]);
      RunKeepsValid(Step(p, es[0]), es[1..]);
    }
  }

  /** On every run the two indexes hold the same transactions, each in exactly one place. */
  lemma {:induction false} IndexesAgree(max: nat, es: seq<Event>, tx: Tx)
    ensures var p := Run(Empty(max), es);
      && |p.byHash| <= p.maxSize
      && (tx.hash in p.byHash && p.byHash[tx.hash] == tx <==> Filed(p, tx))
      && forall a :: a in p.bySender ==> p.bySender[a] != map[]
  {
    RunKeepsValid(Empty(max), es);
  }

  // ---------- The pool ----------

  class TransactionPool {
    var byHash: map<TxHash, Tx>
    var bySender: map<Address, Queue>
    const maxSize: nat

    function View(): Pool
      reads this
    {
      Pool(byHash, bySender, maxSize)
    }

    constructor (max: nat)
      ensures View() == Empty(max)
    {
      byHash, bySender, maxSize := map[], map[], max;
    }

    method AddTransaction(tx: Tx) returns (r: Result<TxHash, PoolError>)
      modifies this
      ensures View() == Add(old(View()), tx)
      ensures r == match AddError(old(View()), tx) case Some(e) => Err(e) case None => Ok(tx.hash)
    {
      if tx.hash in byHash {
        return Err(AlreadyExists);
      }
      if |byHash| >= maxSize {
        return Err(PoolFull);
      }
      if tx.signer.None? {
        return Err(InvalidSignature);
      }
      var sender := tx.signer.value;
      if sender in bySender && tx.nonce in bySender[sender] {
        return Err(NonceUsed);
      }
      byHash := byHash[tx.hash := tx];
      var queue := if sender in bySender then bySender[sender] else map[];
      bySender := bySender[sender := queue[tx.nonce := tx]];
      r := Ok(tx.hash);
    }

    method RemoveTransaction(hash: TxHash) returns (r: Option<Tx>)
      modifies this
      ensures View() == Remove(old(View()), hash)
      ensures r == if hash in old(byHash) then Some(old(byHash)[hash]) else None
    {
      if hash !in byHash {
        return None;
      }
      var tx := byHash[hash];
      byHash := byHash - {hash};
      if tx.signer.Some? && tx.signer.value in bySender {
        var sender := tx.signer.value;
        var queue := bySender[sender] - {tx.nonce};
        if queue == map[] {
          bySender := bySender - {sender};
        } else {
          bySender := bySender[sender := queue];
        }
      }
      r := Some(tx);
    }

    method RemoveIncluded(hashes: seq<TxHash>)
      modifies this
      ensures View() == RemoveAll(old(View()), hashes)
    {
      var i := 0;
      assert hashes[0..] == hashes;
      while i < |hashes|
        invariant 0 <= i <= |hashes|
        invariant RemoveAll(View(), hashes[i..]) == RemoveAll(old(View()), hashes)
      {
        var removed := RemoveTransaction(hashes[i]);
        assert hashes[i..][1..] == hashes[i + 1..];
        i := i + 1;
      }
    }

    method GetPending(max: nat) returns (r: seq<Tx>)
      ensures exists order :: IsOrder(order, bySender.Keys) && r == Pending(View(), order, max)
    {
      var all: seq<Tx> := [];
      ghost var order: seq<Address> := [];
      var todo := bySender.Keys;
      while todo != {}
        invariant todo <= bySender.Keys
        invariant Distinct(order) && forall a :: a in order <==> a in bySender && a !in todo
        invariant all == Collect(bySender, order)
        decreases todo
      {
        var a :| a in todo;
        todo := todo - {a};
        var run := ContiguousRun(bySender[a]);
        all := all + run;
        CollectAppend(bySender, order, a);
        order := order + [a];
      }
      assert IsOrder(order, bySender.Keys);
      r := Cut(Sort(all), max);
    }
  }

  /** The inner loop of `get_pending`: walk a queue in nonce order until a nonce is missing. */
  method ContiguousRun(q: Queue) returns (run: seq<Tx>)
    ensures run == RunOf(q)
  {
    var ns := Ascending(q.Keys);
    KeysOf(q, ns);
    run := LeadingRun(q, ns);
    RunFound(q, ns, run);
  }

  lemma RunFound(q: Queue, ns: seq<nat>, run: seq<Tx>)
    requires ns == Ascending(q.Keys) && IsLeading(q, ns, run)
    ensures run == RunOf(q)
  {
    FirstOfAll(q, ns);
    if ns != [] {
      EndOfRun(q, ns, |run|);
      FromIs(q, ns[0], run);
    }
  }

  /** `run` holds what is queued at the leading gapless part of `ns`. */
  ghost predicate IsLeading(q: Queue, ns: seq<nat>, run: seq<Tx>) {
    if ns == [] then run == [] else
      && 0 < |run| <= |ns|
      && (forall j :: 0 <= j < |run| ==> ns[j] == ns[0] + j)
      && IsRun(q, ns[0], run)
      && (|run| < |ns| ==> ns[|run|] != ns[0] + |run|)
  }

  lemma KeysOf(q: Queue, ns: seq<nat>)
    requires ns == Ascending(q.Keys)
    ensures forall j :: 0 <= j < |ns| ==> ns[j] in q
  {
    forall j | 0 <= j < |ns|
      ensures ns[j] in q
    {
      assert ns[j] in ns;
    }
  }

  method LeadingRun(q: Queue, ns: seq<nat>) returns (run: seq<Tx>)
    requires forall j :: 0 <= j < |ns| ==> ns[j] in q
    ensures IsLeading(q, ns, run)
  {
    run := [];
    var expected: Option<nat> := None;
    for i := 0 to |ns|
      invariant |run| == i
      invariant expected == if i == 0 then None else Some(ns[0] + i)
      invariant forall j :: 0 <= j < i ==> ns[j] == ns[0] + j
      invariant i > 0 ==> IsRun(q, ns[0], run)
    {
      var nonce := ns[i];
      if expected.Some? && nonce != expected.value {
        return;
      }
      expected := Some(nonce + 1);
      assert nonce == ns[0] + i;
      RunGrows(q, ns[0], run);
      run := run + [q[nonce]];
    }
  }

  lemma RunGrows(q: Queue, n: nat, run: seq<Tx>)
    requires n + |run| in q && (run != [] ==> IsRun(q, n, run))
    ensures IsRun(q, n, run + [q[n + |run|]])
  {
    var longer := run + [q[n + |run|]];
    forall j {:trigger longer[j]} | 0 <= j < |longer|
      ensures At(q, n + j) == Some(longer[j])
    {
      assert j < |run| ==> longer[j] == run[j];
    }
  }

  function At(q: Queue, n: nat): Option<Tx> {
    if n in q then Some(q[n]) else None
  }

  ghost predicate IsRun(q: Queue, n: nat, run: seq<Tx>) {
    forall j {:trigger run[j]} :: 0 <= j < |run| ==> At(q, n + j) == Some(run[j])
  }

  lemma {:induction false} FromIs(q: Queue, n: nat, run: seq<Tx>)
    requires IsRun(q, n, run)
    requires n + |run| !in q
    ensures From(q, n) == run
    decreases |run|
  {
    if run != [] {
      assert At(q, n + 0) == Some(run[0]);
      forall j {:trigger run[1..][j]} | 0 <= j < |run[1..]|
        ensures At(q, n + 1 + j) == Some(run[1..][j])
      {
        assert run[1..][j] == run[j + 1];
      }
      FromIs(q, n + 1, run[1..]);
    }
  }

  lemma {:induction false} FirstOfAll(q: Queue, ns: seq<nat>)
    requires ns == Ascending(q.Keys)
    ensures RunOf(q) == if ns == [] then [] else From(q, ns[0])
  {
    if ns == [] {
      assert forall k :: k in q ==> k in ns;
      assert q == map[];
    } else {
      assert ns[0] in ns;
    }
  }

  lemma EndOfRun(q: Queue, ns: seq<nat>, i: nat)
    requires ns == Ascending(q.Keys) && 0 < i <= |ns|
    requires forall j :: 0 <= j < i ==> ns[j] == ns[0] + j
    requires i < |ns| ==> ns[i] != ns[0] + i
    ensures ns[0] + i !in q
  {
    forall j | 0 <= j < |ns|
      ensures ns[j] != ns[0] + i
    {
      if j >= i {
        assert ns[i - 1] < ns[i];
        assert j > i ==> ns[i] < ns[j];
      }
    }
    assert ns[0] + i !in ns;
  }

  lemma {:induction false} CollectAppend(bySender: map<Address, Queue>, order: seq<Address>, a: Address)
    requires a in bySender && forall b :: b in order ==> b in bySender
    ensures Collect(bySender, order + [a]) == Collect(bySender, order) + RunOf(bySender[a])
    decreases |order|
  {
    if order == [] {
      assert (order + [a])[1..] == [];
    } else {
      assert (order + [a])[1..] == order[1..] + [a];
      CollectAppend(bySender, order[1..], a);
    }
  }
}

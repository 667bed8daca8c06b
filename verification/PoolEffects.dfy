/** When the pool takes a transaction and what it tells about a sender's nonces. */
module PoolEffects {
  import opened Wrappers
  import opened OrderedKeys
  import opened Primitives
  import opened TxPool
  import opened TxPoolOrder

  /** The sender has a pooled transaction with this nonce. */
  ghost predicate Queues(p: Pool, a: Address, nonce: nat) {
    exists h :: h in p.byHash && p.byHash[h].signer == Some(a) && p.byHash[h].nonce == nonce
  }

  lemma QueuesExactly(p: Pool, a: Address, nonce: nat)
    requires Valid(p)
    ensures Queues(p, a, nonce) <==> a in p.bySender && nonce in p.bySender[a]
  {
    if Queues(p, a, nonce) {
      var h :| h in p.byHash && p.byHash[h].signer == Some(a) && p.byHash[h].nonce == nonce;
      assert Filed(p, p.byHash[h]);
    }
    if a in p.bySender && nonce in p.bySender[a] {
      var tx := p.bySender[a][nonce];
      assert tx.hash in p.byHash && p.byHash[tx.hash] == tx && tx.signer == Some(a);
    }
  }

  /** Why a transaction is refused, each reason only if none before it applies; else it is pooled, and only it. */
  lemma AddedExactly(p: Pool, tx: Tx)
    requires Valid(p)
    ensures var e := AddError(p, tx);
      && (e == Some(AlreadyExists) <==> tx.hash in p.byHash)
      && (e == Some(PoolFull) <==> tx.hash !in p.byHash && |p.byHash| >= p.maxSize)
      && (e == Some(InvalidSignature) <==> tx.hash !in p.byHash && |p.byHash| < p.maxSize && tx.signer.None?)
      && (e == Some(NonceUsed) <==>
            && tx.hash !in p.byHash && |p.byHash| < p.maxSize
            && tx.signer.Some? && Queues(p, tx.signer.value, tx.nonce))
      && Add(p, tx).maxSize == p.maxSize
      && Add(p, tx).byHash == if e.Some? then p.byHash else p.byHash[tx.hash := tx]
  {
    if tx.signer.Some? {
      QueuesExactly(p, tx.signer.value, tx.nonce);
    }
  }

  /** The next nonce of a sender is one above its highest pooled one, if it has any. */
  lemma PendingNonceExactly(p: Pool, a: Address, n: nat)
    requires Valid(p)
    ensures PendingNonce(p, a) == Some(n + 1) <==> Queues(p, a, n) && forall k: nat :: Queues(p, a, k) ==> k <= n
    ensures PendingNonce(p, a) == None <==> forall k: nat :: !Queues(p, a, k)
    ensures PendingNonce(p, a) != Some(0)
  {
    forall k: nat
      ensures Queues(p, a, k) <==> a in p.bySender && k in p.bySender[a]
    {
      QueuesExactly(p, a, k);
    }
    if a in p.bySender {
      var keys := p.bySender[a].Keys;
      assert p.bySender[a] != map[];
      assert exists k :: k in keys;
    }
  }

  // ---------- Who is offered ----------

  /** `a` offers a higher price than `b`, or the same with no higher nonce; no price counts as 0. */
  predicate Ahead(a: Tx, b: Tx) {
    match (a.gasPrice, b.gasPrice)
    case (Some(x), Some(y)) => x > y || (x == y && a.nonce <= b.nonce)
    case (Some(x), None) => x > 0 || a.nonce <= b.nonce
    case (None, Some(y)) => y == 0 && a.nonce <= b.nonce
    case (None, None) => a.nonce <= b.nonce
  }

  lemma AheadIs(a: Tx, b: Tx)
    ensures Ahead(a, b) <==> Before(a, b)
  {}

  /**
   The offered list is in order of price and then nonce, holds only pooled transactions with no gap below
   them, is no longer than allowed, and leaves one out only if it is full of transactions ahead of it.
   */
  lemma {:induction false} OffersBest(p: Pool, order: seq<Address>, max: nat, a: Address, tx: Tx)
    requires Valid(p) && Listed(p, order) && tx.signer == Some(a)
    ensures var offered := Pending(p, order, max);
      && |offered| <= max
      && (forall i, j :: 0 <= i < j < |offered| ==> Ahead(offered[i], offered[j]))
      && (tx in offered ==> Filed(p, tx) && NoGapBelow(p.bySender[a], tx.nonce))
      && (Filed(p, tx) && NoGapBelow(p.bySender[a], tx.nonce) && tx !in offered ==>
            |offered| == max && forall i :: 0 <= i < |offered| ==> Ahead(offered[i], tx))
  {
    var all := Pending(p, order, |Collect(p.bySender, order)|);
    var offered := Pending(p, order, max);
    AllOffered(p, order, |Collect(p.bySender, order)|);
    OfferedExactly(p, order, |Collect(p.bySender, order)|, a, tx);
    PendingSorted(p, order, |Collect(p.bySender, order)|);
    CutOff(all, offered, max, tx);
  }

  lemma CutOff(all: seq<Tx>, offered: seq<Tx>, max: nat, tx: Tx)
    requires Sorted(all) && offered == Cut(all, max)
    ensures |offered| <= max
    ensures forall i, j :: 0 <= i < j < |offered| ==> Ahead(offered[i], offered[j])
    ensures tx in offered ==> tx in all
    ensures tx in all && tx !in offered ==>
      |offered| == max && forall i :: 0 <= i < |offered| ==> Ahead(offered[i], tx)
  {
    forall i, j | 0 <= i < j < |all|
      ensures Ahead(all[i], all[j])
    {
      AheadIs(all[i], all[j]);
    }
    if tx in all && tx !in offered {
      var j :| 0 <= j < |all| && all[j] == tx;
      assert forall k :: 0 <= k < |offered| ==> offered[k] == all[k] && offered[k] in offered;
      assert j >= |offered|;
    }
  }
}

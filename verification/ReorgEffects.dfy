/**
 What a reorganisation does to the transaction pool and the chain, told without its loops: which
 transactions come back, that blocks are given back one after the other from the top, and where the
 application of the new blocks stops.
 */
module ReorgEffects {
  import opened Wrappers
  import opened OrderedKeys
  import opened Primitives
  import opened Storage
  import opened Chain
  import opened Reorg
  import opened ChainRuns
  import opened ChainForks
  import TxPool

  // ---------- Adding to the pool ----------

  /** `tx` is pooled, or there is a reason why it is not. */
  ghost predicate Back(p: TxPool.Pool, tx: Tx) {
    || tx.hash in p.byHash
    || tx.signer.None?
    || |p.byHash| >= p.maxSize
    || (tx.signer.value in p.bySender && tx.nonce in p.bySender[tx.signer.value])
  }

  /** Everything in `p` is still in `q`, in its place. */
  ghost predicate Kept(p: TxPool.Pool, q: TxPool.Pool) {
    && q.maxSize == p.maxSize
    && (forall h :: h in p.byHash ==> h in q.byHash && q.byHash[h] == p.byHash[h])
    && (forall a :: a in p.bySender ==> a in q.bySender)
    && (forall a, n :: a in p.bySender && n in p.bySender[a] ==>
          n in q.bySender[a] && q.bySender[a][n] == p.bySender[a][n])
  }

  lemma KeptSize(p: TxPool.Pool, q: TxPool.Pool)
    requires Kept(p, q)
    ensures |p.byHash| <= |q.byHash|
  {
    assert p.byHash.Keys <= q.byHash.Keys;
    SubsetSize(p.byHash.Keys, q.byHash.Keys);
  }

  lemma KeptOn(p: TxPool.Pool, q: TxPool.Pool, r: TxPool.Pool)
    requires Kept(p, q) && Kept(q, r)
    ensures Kept(p, r)
  {}

  lemma BackKept(p: TxPool.Pool, q: TxPool.Pool, tx: Tx)
    requires Back(p, tx) && Kept(p, q)
    ensures Back(q, tx)
  {
    KeptSize(p, q);
  }

  lemma AddKeeps(p: TxPool.Pool, tx: Tx)
    ensures Kept(p, TxPool.Add(p, tx)) && Back(TxPool.Add(p, tx), tx)
  {}

  /** Adding a list leaves each of its transactions in the pool or with a reason, and adds nothing else. */
  lemma {:induction false} AddAllExactly(p: TxPool.Pool, txs: seq<Tx>)
    ensures Kept(p, TxPool.AddAll(p, txs))
    ensures forall i :: 0 <= i < |txs| ==> Back(TxPool.AddAll(p, txs), txs[i])
    ensures forall h :: h in TxPool.AddAll(p, txs).byHash && h !in p.byHash ==> TxPool.AddAll(p, txs).byHash[h] in txs
    decreases |txs|
  {
    if txs != [] {
      var one := TxPool.Add(p, txs[0]);
      AddKeeps(p, txs[0]);
      AddAllExactly(one, txs[1..]);
      AddedFirst(p, one, TxPool.AddAll(one, txs[1..]), txs);
    }
  }

  lemma AddedFirst(p: TxPool.Pool, one: TxPool.Pool, all: TxPool.Pool, txs: seq<Tx>)
    requires txs != [] && one == TxPool.Add(p, txs[0]) && Kept(p, one) && Back(one, txs[0]) && Kept(one, all)
    requires forall i :: 0 <= i < |txs[1..]| ==> Back(all, txs[1..][i])
    requires forall h :: h in all.byHash && h !in one.byHash ==> all.byHash[h] in txs[1..]
    ensures Kept(p, all)
    ensures forall i :: 0 <= i < |txs| ==> Back(all, txs[i])
    ensures forall h :: h in all.byHash && h !in p.byHash ==> all.byHash[h] in txs
  {
    KeptOn(p, one, all);
    BackKept(one, all, txs[0]);
    assert txs == [txs[0]] + txs[1..];
    forall i | 0 < i < |txs|
      ensures Back(all, txs[i])
    {
      assert txs[i] == txs[1..][i - 1];
    }
  }

  // ---------- What comes back ----------

  /** `tx` is in the block that the index names at `n`. */
  ghost predicate InBlockAt(t: Tables, n: nat, tx: Tx) {
    BlockByNumber(t, n).Some? && tx in BlockByNumber(t, n).value.txs
  }

  ghost predicate AllBack(t: Tables, p: TxPool.Pool, fork: nat, top: nat) {
    forall n: nat, tx :: fork < n <= top && InBlockAt(t, n, tx) ==> Back(p, tx)
  }

  /** What is in `q` and not in `p` is in one of these blocks. */
  ghost predicate NewFrom(t: Tables, p: TxPool.Pool, q: TxPool.Pool, fork: nat, top: nat) {
    forall h :: h in q.byHash && h !in p.byHash ==> exists n: nat :: fork < n <= top && InBlockAt(t, n, q.byHash[h])
  }

  lemma {:induction false} ReturnedBack(t: Tables, p: TxPool.Pool, fork: nat, top: nat)
    ensures var q := ReturnTxs(t, p, fork, top);
      Kept(p, q) && AllBack(t, q, fork, top) && NewFrom(t, p, q, fork, top)
    decreases top
  {
    if top > fork {
      var b := BlockByNumber(t, top);
      var one := if b.Some? then TxPool.AddAll(p, b.value.txs) else p;
      var q := ReturnTxs(t, one, fork, top - 1);
      if b.Some? { AddAllExactly(p, b.value.txs); }
      ReturnedBack(t, one, fork, top - 1);
      KeptOn(p, one, q);
      forall n: nat, tx | fork < n <= top && InBlockAt(t, n, tx)
        ensures Back(q, tx)
      {
        if n == top { BackKept(one, q, tx); }
      }
      forall h | h in q.byHash && h !in p.byHash
        ensures exists n: nat :: fork < n <= top && InBlockAt(t, n, q.byHash[h])
      {
        if h in one.byHash {
          assert InBlockAt(t, top, q.byHash[h]);
        }
      }
    }
  }

  /**
   Going back to a fork point: every transaction of every block above it is pooled afterwards, unless it
   has no signer, the pool is full or its sender's nonce is taken; what was pooled stays; whatever is new
   comes from one of these blocks.
   */
  lemma {:induction false} ReturnedExactly(s: State, fork: nat)
    ensures var q := AtFork(s, fork).pool;
      && Kept(s.pool, q)
      && (forall n: nat, tx :: fork < n <= NumberOf(s) && InBlockAt(s.tables, n, tx) ==>
            || tx.hash in q.byHash || tx.signer.None? || |q.byHash| >= q.maxSize
            || (tx.signer.value in q.bySender && tx.nonce in q.bySender[tx.signer.value]))
      && (forall h :: h in q.byHash && h !in s.pool.byHash ==>
            exists n: nat :: fork < n <= NumberOf(s) && InBlockAt(s.tables, n, q.byHash[h]))
  {
    ReturnedBack(s.tables, s.pool, fork, NumberOf(s));
    var q := AtFork(s, fork).pool;
    assert q == ReturnTxs(s.tables, s.pool, fork, NumberOf(s));
    forall n: nat, tx | fork < n <= NumberOf(s) && InBlockAt(s.tables, n, tx)
      ensures Back(q, tx)
    {}
  }

  // ---------- One block after the other ----------

  lemma {:induction false} ReturnSplits(t: Tables, p: TxPool.Pool, fork: nat, mid: nat, top: nat)
    requires fork <= mid <= top
    ensures ReturnTxs(t, p, fork, top) == ReturnTxs(t, ReturnTxs(t, p, mid, top), fork, mid)
    decreases top
  {
    if top > mid {
      var b := BlockByNumber(t, top);
      ReturnSplits(t, if b.Some? then TxPool.AddAll(p, b.value.txs) else p, fork, mid, top - 1);
    }
  }

  lemma {:induction false} ReturnElsewhere(t: Tables, u: Tables, p: TxPool.Pool, fork: nat, top: nat)
    requires u == t.(latest := u.latest)
    ensures ReturnTxs(u, p, fork, top) == ReturnTxs(t, p, fork, top)
    decreases top
  {
    if top > fork {
      var b := BlockByNumber(t, top);
      ReturnElsewhere(t, u, if b.Some? then TxPool.AddAll(p, b.value.txs) else p, fork, top - 1);
    }
  }

  /** Going back in two stages is going back at once: blocks are given back from the head down. */
  lemma {:induction false} BackInStages(s: State, fork: nat, mid: nat, g: Header)
    requires Inv(s, g) && fork <= mid <= NumberOf(s)
    ensures AtFork(s, fork) == AtFork(AtFork(s, mid), fork)
  {
    AtForkIs(s, mid, g);
    AtForkIs(s, fork, g);
    AtForkKeeps(s, mid, g);
    var m := AtFork(s, mid);
    AtForkIs(m, fork, g);
    ReturnSplits(s.tables, s.pool, fork, mid, NumberOf(s));
    ReturnElsewhere(s.tables, m.tables, m.pool, fork, mid);
    assert At(m.tables, fork) == At(s.tables, fork);
  }

  /** Going back one block offers its transactions to the pool in their order. */
  lemma {:induction false} BackOneBlock(s: State, g: Header)
    requires Inv(s, g) && NumberOf(s) > 0
    ensures var b := BlockByNumber(s.tables, NumberOf(s)); var t := AtFork(s, NumberOf(s) - 1);
      && b.Some? && b.value.header == s.head.value
      && t.pool == TxPool.AddAll(s.pool, b.value.txs)
      && t.head.Some? && HashOf(t.head.value) == s.head.value.parentHash
  {
    var n := NumberOf(s);
    BlockThere(s.tables, g, n, n);
    BlockThere(s.tables, g, n, n - 1);
    AtForkIs(s, n - 1, g);
    assert LinkIn(s.tables, n);
    var p := TxPool.AddAll(s.pool, BlockByNumber(s.tables, n).value.txs);
    assert ReturnTxs(s.tables, p, n - 1, n - 1) == p;
  }

  /** A list is offered to the pool one transaction after the other. */
  lemma {:induction false} AddAllSplits(p: TxPool.Pool, xs: seq<Tx>, ys: seq<Tx>)
    ensures TxPool.AddAll(p, xs + ys) == TxPool.AddAll(TxPool.AddAll(p, xs), ys)
    decreases |xs|
  {
    if xs == [] {
      assert xs + ys == ys;
    } else {
      assert (xs + ys)[0] == xs[0] && (xs + ys)[1..] == xs[1..] + ys;
      AddAllSplits(TxPool.Add(p, xs[0]), xs[1..], ys);
    }
  }

  // ---------- Applying the new blocks ----------

  /** What the first of the blocks does, and the others after it. */
  lemma {:induction false} ApplyFirst(rules: Rules, s: State, jobs: seq<Job>) returns (out: Outcome, rest: Applied)
    requires |jobs| > 0
    ensures out == Apply(rules, jobs[0].oracles, s, jobs[0].block)
    ensures out.state.pool ==
      if out.error.None? then TxPool.RemoveAll(s.pool, HashesOf(jobs[0].block.txs)) else s.pool
    ensures rest == ApplyAll(rules, out.state, jobs[1..])
    ensures ApplyAll(rules, s, jobs) ==
      if out.error.None? then Applied(rest.state, rest.count + 1) else Applied(out.state, 0)
  {
    out := Apply(rules, jobs[0].oracles, s, jobs[0].block);
    rest := ApplyAll(rules, out.state, jobs[1..]);
  }

  /** One more block is applied to what those before it left. */
  lemma {:induction false} AppendJob(rules: Rules, s: State, jobs: seq<Job>, job: Job, out: Outcome)
    requires ApplyAll(rules, s, jobs).count == |jobs|
    requires out == Apply(rules, job.oracles, ApplyAll(rules, s, jobs).state, job.block)
    ensures ApplyAll(rules, s, jobs + [job]) == Applied(out.state, |jobs| + if out.error.None? then 1 else 0)
    decreases |jobs|
  {
    var all := jobs + [job];
    var first, rest := ApplyFirst(rules, s, all);
    if jobs == [] {
      assert all[0] == job && all[1..] == [];
    } else {
      var f, r := ApplyFirst(rules, s, jobs);
      assert all[0] == jobs[0] && all[1..] == jobs[1..] + [job];
      AppendJob(rules, f.state, jobs[1..], job, out);
    }
  }

  /** The counted blocks succeed one after the other, and the next one, if there is one, fails. */
  lemma {:induction false} FirstFailure(rules: Rules, s: State, jobs: seq<Job>) returns (k: nat, mid: Applied)
    ensures k == ApplyAll(rules, s, jobs).count <= |jobs|
    ensures mid == ApplyAll(rules, s, jobs[..k]) && mid.count == k
    ensures k < |jobs| ==>
      var out := Apply(rules, jobs[k].oracles, mid.state, jobs[k].block);
      out.error.Some? && out.state == ApplyAll(rules, s, jobs).state
    ensures k == |jobs| ==> mid == ApplyAll(rules, s, jobs)
    decreases |jobs|
  {
    k, mid := 0, Applied(s, 0);
    assert jobs[..0] == [];
    if |jobs| > 0 {
      var out, rest := ApplyFirst(rules, s, jobs);
      if out.error.None? {
        var j: nat;
        j, mid := FirstFailure(rules, out.state, jobs[1..]);
        k := j + 1;
        var part := jobs[..k];
        assert part[0] == jobs[0] && part[1..] == jobs[1..][..j];
        var o, r := ApplyFirst(rules, s, part);
        mid := Applied(r.state, r.count + 1);
      }
    }
    assert jobs[..|jobs|] == jobs;
  }

  /** Whatever comes after a failed block is not looked at. */
  lemma {:induction false} FailureStops(rules: Rules, s: State, jobs: seq<Job>, more: seq<Job>)
    requires ApplyAll(rules, s, jobs).count < |jobs|
    ensures ApplyAll(rules, s, jobs + more) == ApplyAll(rules, s, jobs)
    decreases |jobs|
  {
    var out, rest := ApplyFirst(rules, s, jobs);
    var all := jobs + more;
    assert all[0] == jobs[0] && all[1..] == jobs[1..] + more;
    var o, r := ApplyFirst(rules, s, all);
    if out.error.None? {
      FailureStops(rules, out.state, jobs[1..], more);
    }
  }

  /** `h` is the hash of a transaction of one of the blocks. */
  ghost predicate Included(jobs: seq<Job>, h: TxHash) {
    exists i, k :: 0 <= i < |jobs| && 0 <= k < |jobs[i].block.txs| && jobs[i].block.txs[k].hash == h
  }

  lemma IncludedFirst(jobs: seq<Job>, h: TxHash)
    requires |jobs| > 0
    ensures Included(jobs, h) <==> h in HashesOf(jobs[0].block.txs) || Included(jobs[1..], h)
  {
    if Included(jobs, h) {
      var i, j :| 0 <= i < |jobs| && 0 <= j < |jobs[i].block.txs| && jobs[i].block.txs[j].hash == h;
      if i == 0 {
        assert HashesOf(jobs[0].block.txs)[j] == h;
      } else {
        assert jobs[1..][i - 1].block.txs[j].hash == h;
      }
    }
    if h in HashesOf(jobs[0].block.txs) {
      var j :| 0 <= j < |jobs[0].block.txs| && HashesOf(jobs[0].block.txs)[j] == h;
      assert jobs[0].block.txs[j].hash == h;
    }
    if Included(jobs[1..], h) {
      var i, j :| 0 <= i < |jobs[1..]| && 0 <= j < |jobs[1..][i].block.txs| && jobs[1..][i].block.txs[j].hash == h;
      assert jobs[i + 1].block.txs[j].hash == h;
    }
  }

  /** The pool without the transactions of these blocks, block by block. */
  function Without(p: TxPool.Pool, jobs: seq<Job>): TxPool.Pool
    decreases |jobs|
  {
    if |jobs| == 0 then p else Without(TxPool.RemoveAll(p, HashesOf(jobs[0].block.txs)), jobs[1..])
  }

  lemma {:induction false} AppliedPool(rules: Rules, s: State, jobs: seq<Job>)
    ensures ApplyAll(rules, s, jobs).count <= |jobs|
    ensures ApplyAll(rules, s, jobs).state.pool == Without(s.pool, jobs[..ApplyAll(rules, s, jobs).count])
    decreases |jobs|
  {
    if |jobs| > 0 {
      var out, rest := ApplyFirst(rules, s, jobs);
      if out.error.None? {
        AppliedPool(rules, out.state, jobs[1..]);
        var all := jobs[..rest.count + 1];
        assert all[0] == jobs[0] && all[1..] == jobs[1..][..rest.count];
      }
    }
  }

  lemma {:induction false} WithoutExactly(p: TxPool.Pool, jobs: seq<Job>, h: TxHash)
    requires TxPool.Valid(p)
    ensures h in Without(p, jobs).byHash <==> h in p.byHash && !Included(jobs, h)
    decreases |jobs|
  {
    if |jobs| > 0 {
      TxPool.RemoveAllKeepsValid(p, HashesOf(jobs[0].block.txs));
      WithoutExactly(TxPool.RemoveAll(p, HashesOf(jobs[0].block.txs)), jobs[1..], h);
      IncludedFirst(jobs, h);
    }
  }

  /** Applying blocks takes exactly the transactions of the applied ones out of the pool. */
  lemma {:induction false} AppliedLeave(rules: Rules, s: State, jobs: seq<Job>, h: TxHash)
    requires TxPool.Valid(s.pool)
    ensures var done := ApplyAll(rules, s, jobs);
      && done.count <= |jobs|
      && (h in done.state.pool.byHash <==> h in s.pool.byHash && !Included(jobs[..done.count], h))
  {
    AppliedPool(rules, s, jobs);
    WithoutExactly(s.pool, jobs[..ApplyAll(rules, s, jobs).count], h);
  }

  /**
   A whole reorganisation loses no transaction: one of a reverted block is in an applied block or pooled
   afterwards, unless at the fork point it has no signer, finds the pool full or its nonce taken.
   */
  lemma {:induction false} ReorgLosesNone(rules: Rules, s: State, fork: nat, jobs: seq<Job>, n: nat, tx: Tx)
    requires TxPool.Valid(s.pool) && fork < n <= NumberOf(s) && InBlockAt(s.tables, n, tx)
    ensures var r := Reorganised(rules, s, fork, jobs);
      var back := AtFork(s, fork).pool;
      && r.result.Ok? && r.result.value.applied <= |jobs|
      && (|| Included(jobs[..r.result.value.applied], tx.hash)
          || tx.hash in r.state.pool.byHash
          || tx.signer.None? || |back.byHash| >= back.maxSize
          || (tx.signer.value in back.bySender && tx.nonce in back.bySender[tx.signer.value]))
  {
    var at := AtFork(s, fork);
    var done := ApplyAll(rules, at, jobs);
    ReorganisedAs(rules, s, fork, jobs, at, done);
    BackAtFork(s, fork, n, tx);
    NoneLost(rules, at, jobs, tx);
  }

  lemma {:induction false} BackAtFork(s: State, fork: nat, n: nat, tx: Tx)
    requires TxPool.Valid(s.pool) && fork < n <= NumberOf(s) && InBlockAt(s.tables, n, tx)
    ensures TxPool.Valid(AtFork(s, fork).pool) && Back(AtFork(s, fork).pool, tx)
  {
    ReturnedExactly(s, fork);
    ReturnKeepsValid(s.tables, s.pool, fork, NumberOf(s));
  }

  lemma {:induction false} NoneLost(rules: Rules, s: State, jobs: seq<Job>, tx: Tx)
    requires TxPool.Valid(s.pool) && Back(s.pool, tx)
    ensures var done := ApplyAll(rules, s, jobs);
      && done.count <= |jobs|
      && (|| Included(jobs[..done.count], tx.hash)
          || tx.hash in done.state.pool.byHash
          || tx.signer.None? || |s.pool.byHash| >= s.pool.maxSize
          || (tx.signer.value in s.pool.bySender && tx.nonce in s.pool.bySender[tx.signer.value]))
  {
    AppliedLeave(rules, s, jobs, tx.hash);
  }

  // ---------- Fork detection ----------

  /**
   For any header at all: no fork is reported exactly when it extends the head, is not above it, has an
   unknown parent, or its parent is an ancestor of the head or named by a stale index entry.
   */
  lemma {:induction false} NoForkExactly(t: Tables, head: Header, g: Header, incoming: Header)
    requires Canonical(t, Some(head), g)
    ensures DetectFork(t, head, incoming).None? <==>
      || incoming.parentHash == HashOf(head)
      || incoming.number <= head.number
      || incoming.parentHash !in t.headers
      || (t.headers[incoming.parentHash].number <= head.number
          && Ancestor(t.headers, HashOf(head), t.headers[incoming.parentHash].number) == incoming.parentHash)
      || Stale(t, head, incoming.parentHash)
  {
    var parent := incoming.parentHash;
    if parent in t.headers {
      var number := t.headers[parent].number;
      if number <= head.number {
        IndexIsAncestry(t, head, g, number);
      }
      if Stale(t, head, parent) {
        var n :| n > head.number && OnIndex(t, n, parent);
        EntryNumber(t, head, g, n, parent);
      }
    }
  }
}

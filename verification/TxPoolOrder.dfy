/**
 What the pool offers: a sorted rearrangement of every sender's contiguous run, in which one sender's
 transactions stay in nonce order exactly when their prices do not rise.
 */
module TxPoolOrder {
  import opened Wrappers
  import opened Sequences
  import opened OrderedKeys
  import opened Primitives
  import opened TxPool

  /** The transactions signed by `a`, in order. */
  function By(s: seq<Tx>, a: Address): seq<Tx> {
    if s == [] then []
    else if s[0].signer == Some(a) then [s[0]] + By(s[1..], a)
    else By(s[1..], a)
  }

  ghost predicate Sorted(s: seq<Tx>) {
    forall i, j :: 0 <= i < j < |s| ==> Before(s[i], s[j])
  }

  /** No transaction pays more than an earlier one. */
  ghost predicate PricesFall(s: seq<Tx>) {
    forall i, j :: 0 <= i < j < |s| ==> Price(s[i]) >= Price(s[j])
  }

  // ---------- Sorting ----------

  lemma {:induction false} InsertSorted(x: Tx, s: seq<Tx>)
    requires Sorted(s)
    ensures Sorted(Insert(x, s)) && multiset(Insert(x, s)) == multiset(s) + multiset{x}
  {
    if s != [] {
      if Before(x, s[0]) {
        assert forall j :: 0 < j < |s| ==> Before(s[0], s[j]);
      } else {
        InsertSorted(x, s[1..]);
        FirstBeforeInserted(x, s);
        SortedCons(s[0], Insert(x, s[1..]));
        SameMultiset(x, s);
      }
    }
  }

  lemma SortedCons(x: Tx, s: seq<Tx>)
    requires Sorted(s) && forall y :: y in s ==> Before(x, y)
    ensures Sorted([x] + s)
  {}

  lemma {:induction false} SameMultiset(x: Tx, s: seq<Tx>)
    requires s != [] && !Before(x, s[0])
    requires multiset(Insert(x, s[1..])) == multiset(s[1..]) + multiset{x}
    ensures multiset(Insert(x, s)) == multiset(s) + multiset{x}
  {
    assert s == [s[0]] + s[1..];
  }

  lemma {:induction false} FirstBeforeInserted(x: Tx, s: seq<Tx>)
    requires s != [] && Sorted(s) && !Before(x, s[0])
    requires multiset(Insert(x, s[1..])) == multiset(s[1..]) + multiset{x}
    ensures forall y :: y in Insert(x, s[1..]) ==> Before(s[0], y)
  {
    var t := Insert(x, s[1..]);
    forall y | y in t
      ensures Before(s[0], y)
    {
      assert y in multiset(t);
      if y != x {
        assert y in s[1..];
      }
    }
  }

  /** Sorting gives a sorted rearrangement. */
  lemma {:induction false} SortSorts(s: seq<Tx>)
    ensures Sorted(Sort(s)) && multiset(Sort(s)) == multiset(s)
  {
    if s != [] {
      assert s == [s[0]] + s[1..];
      SortSorts(s[1..]);
      InsertSorted(s[0], Sort(s[1..]));
    }
  }

  /** Sorting leaves a sequence alone exactly when it is sorted: it never swaps equals. */
  lemma {:induction false} SortSame(s: seq<Tx>)
    ensures Sort(s) == s <==> Sorted(s)
  {
    SortSorts(s);
    if s != [] && Sorted(s) {
      SortSame(s[1..]);
      assert |s| > 1 ==> Before(s[0], s[1]);
    }
  }

  lemma {:induction false} ByCons(x: Tx, s: seq<Tx>, a: Address)
    ensures By([x] + s, a) == if x.signer == Some(a) then [x] + By(s, a) else By(s, a)
  {
    assert ([x] + s)[1..] == s;
  }

  lemma {:induction false} InsertCons(x: Tx, y: Tx, s: seq<Tx>)
    ensures Insert(x, [y] + s) == if Before(x, y) then [x] + ([y] + s) else [y] + Insert(x, s)
  {
    assert ([y] + s)[1..] == s;
  }

  lemma {:induction false} SortCons(x: Tx, s: seq<Tx>)
    ensures Sort([x] + s) == Insert(x, Sort(s))
  {
    assert ([x] + s)[1..] == s;
  }

  lemma {:induction false} ByAppend(s: seq<Tx>, t: seq<Tx>, a: Address)
    ensures By(s + t, a) == By(s, a) + By(t, a)
    decreases |s|
  {
    if s == [] {
      assert s + t == t;
    } else {
      assert s + t == [s[0]] + (s[1..] + t);
      ByCons(s[0], s[1..] + t, a);
      ByAppend(s[1..], t, a);
      Reassociate([s[0]], By(s[1..], a), By(t, a));
    }
  }

  lemma {:induction false} ByFirst(s: seq<Tx>, a: Address)
    requires By(s, a) != []
    ensures By(s, a)[0] in s
  {
    if s[0].signer != Some(a) {
      ByFirst(s[1..], a);
    }
  }

  lemma {:induction false} BeforeAll(x: Tx, s: seq<Tx>, a: Address)
    requires Sorted(s) && s != [] && Before(x, s[0])
    ensures Insert(x, By(s, a)) == [x] + By(s, a)
  {
    if By(s, a) != [] {
      ByFirst(s, a);
      var y := By(s, a)[0];
      var i :| 0 <= i < |s| && s[i] == y;
      assert i > 0 ==> Before(s[0], s[i]);
      assert Before(x, y);
    }
  }

  lemma {:induction false} ByInsert(x: Tx, s: seq<Tx>, a: Address)
    requires Sorted(s)
    ensures By(Insert(x, s), a) == if x.signer == Some(a) then Insert(x, By(s, a)) else By(s, a)
  {
    if s == [] {
      ByCons(x, [], a);
      assert [x] + [] == [x];
    } else if Before(x, s[0]) {
      ByCons(x, s, a);
      BeforeAll(x, s, a);
    } else {
      ByCons(s[0], Insert(x, s[1..]), a);
      ByInsert(x, s[1..], a);
      InsertCons(x, s[0], By(s[1..], a));
    }
  }

  /** Sorting everything sorts each sender's transactions among themselves. */
  lemma {:induction false} BySort(s: seq<Tx>, a: Address)
    ensures By(Sort(s), a) == Sort(By(s, a))
  {
    if s != [] {
      BySort(s[1..], a);
      SortSorts(s[1..]);
      ByInsert(s[0], Sort(s[1..]), a);
      if s[0].signer == Some(a) {
        SortCons(s[0], By(s[1..], a));
      }
    }
  }

  lemma {:induction false} ByPrefix(s: seq<Tx>, k: nat, a: Address)
    requires k <= |s|
    ensures By(s[..k], a) <= By(s, a)
  {
    assert s == s[..k] + s[k..];
    ByAppend(s[..k], s[k..], a);
  }

  // ---------- Runs ----------

  lemma {:induction false} FromExactly(q: Queue, n: nat)
    ensures IsRun(q, n, From(q, n)) && n + |From(q, n)| !in q
    decreases GreatestOr0(q.Keys) + 1 - n
  {
    if n in q {
      FromExactly(q, n + 1);
      var rest := From(q, n + 1);
      var run := From(q, n);
      assert run == [q[n]] + rest;
      forall j {:trigger run[j]} | 0 <= j < |run|
        ensures At(q, n + j) == Some(run[j])
      {
        if j > 0 {
          assert run[j] == rest[j - 1];
        }
      }
    }
  }

  /** The run starts at the lowest queued nonce, has no gap, and stops only where a nonce is missing. */
  lemma RunExactly(q: Queue)
    requires q != map[]
    ensures RunOf(q) != [] && IsRun(q, Least(q.Keys), RunOf(q))
    ensures Least(q.Keys) + |RunOf(q)| !in q
  {
    FromExactly(q, Least(q.Keys));
  }

  /** In a sound pool, the nonces along a run are consecutive and all signed by the queue's owner. */
  lemma RunNonces(p: Pool, a: Address)
    requires Valid(p) && a in p.bySender
    ensures var run := RunOf(p.bySender[a]);
      forall j :: 0 <= j < |run| ==> run[j].signer == Some(a) && run[j].nonce == Least(p.bySender[a].Keys) + j
  {
    var q := p.bySender[a];
    RunExactly(q);
    var run := RunOf(q);
    forall j | 0 <= j < |run|
      ensures run[j].signer == Some(a) && run[j].nonce == Least(q.Keys) + j
    {
      assert At(q, Least(q.Keys) + j) == Some(run[j]);
    }
  }

  lemma {:induction false} ByOwn(s: seq<Tx>, owner: Address, a: Address)
    requires forall j :: 0 <= j < |s| ==> s[j].signer == Some(owner)
    ensures By(s, a) == if a == owner then s else []
  {
    if s != [] {
      ByOwn(s[1..], owner, a);
      assert s == [s[0]] + s[1..];
    }
  }

  /** Whatever the walk order, each sender contributes its run, whole and once. */
  lemma {:induction false} ByCollect(p: Pool, order: seq<Address>, a: Address)
    requires Valid(p) && Distinct(order) && forall b :: b in order ==> b in p.bySender
    ensures By(Collect(p.bySender, order), a) == if a in order then RunOf(p.bySender[a]) else []
    decreases |order|
  {
    if order != [] {
      var b := order[0];
      assert order == [b] + order[1..];
      ByCollect(p, order[1..], a);
      RunNonces(p, b);
      ByOwn(RunOf(p.bySender[b]), b, a);
      ByAppend(RunOf(p.bySender[b]), Collect(p.bySender, order[1..]), a);
    }
  }

  ghost predicate Listed(p: Pool, order: seq<Address>) {
    IsOrder(order, p.bySender.Keys)
  }

  function RunFor(p: Pool, a: Address): seq<Tx> {
    RunOf(QueueOf(p, a))
  }

  lemma RunSortedExactly(p: Pool, a: Address)
    requires Valid(p)
    ensures Sorted(RunFor(p, a)) <==> PricesFall(RunFor(p, a))
  {
    if a in p.bySender {
      RunNonces(p, a);
    }
  }

  /** Before the cut, a sender's share of the list is its run, sorted. */
  lemma {:induction false} ShareOf(p: Pool, order: seq<Address>, a: Address)
    requires Valid(p) && Listed(p, order)
    ensures By(Sort(Collect(p.bySender, order)), a) == Sort(RunFor(p, a))
  {
    BySort(Collect(p.bySender, order), a);
    ByCollect(p, order, a);
  }

  /** A sender's transactions are offered in nonce order exactly when their prices do not rise with the nonce. */
  lemma {:induction false} NonceOrderExactly(p: Pool, order: seq<Address>, a: Address)
    requires Valid(p) && Listed(p, order)
    ensures By(Sort(Collect(p.bySender, order)), a) == RunFor(p, a) <==> PricesFall(RunFor(p, a))
  {
    ShareOf(p, order, a);
    SortSame(RunFor(p, a));
    RunSortedExactly(p, a);
  }

  /** However the list is cut off, a sender with falling prices gets a prefix of its run. */
  lemma {:induction false} PendingIsPrefix(p: Pool, order: seq<Address>, max: nat, a: Address)
    requires Valid(p) && Listed(p, order) && PricesFall(RunFor(p, a))
    ensures By(Pending(p, order, max), a) <= RunFor(p, a)
  {
    var all := Sort(Collect(p.bySender, order));
    NonceOrderExactly(p, order, a);
    if max < |all| {
      ByPrefix(all, max, a);
    }
  }

  /**
   The list, before the cut, is a sorted rearrangement of the collected runs; the cut takes the best
   `max` of it.
   */
  lemma {:induction false} PendingSorted(p: Pool, order: seq<Address>, max: nat)
    requires Listed(p, order)
    ensures Sorted(Pending(p, order, max))
    ensures multiset(Sort(Collect(p.bySender, order))) == multiset(Collect(p.bySender, order))
    ensures |Pending(p, order, max)| == if max <= |Collect(p.bySender, order)| then max
        else |Collect(p.bySender, order)|
  {
    var all := Collect(p.bySender, order);
    SortSorts(all);
    assert |multiset(all)| == |all| && |multiset(Sort(all))| == |Sort(all)|;
  }

  lemma {:induction false} ByIn(s: seq<Tx>, a: Address, tx: Tx)
    ensures tx in By(s, a) <==> tx in s && tx.signer == Some(a)
  {
    if s != [] {
      ByIn(s[1..], a, tx);
      assert s == [s[0]] + s[1..];
    }
  }

  ghost predicate NoGapBelow(q: Queue, n: nat) {
    q != map[] && forall k: nat :: Least(q.Keys) <= k <= n ==> k in q
  }

  /**
   With room for all, exactly those pooled transactions are offered that no gap separates from their sender's lowest.
   */
  lemma {:induction false} OfferedExactly(p: Pool, order: seq<Address>, max: nat, a: Address, tx: Tx)
    requires Valid(p) && Listed(p, order) && max >= |Collect(p.bySender, order)|
    requires tx.signer == Some(a)
    ensures tx in Pending(p, order, max) <==> Filed(p, tx) && NoGapBelow(p.bySender[a], tx.nonce)
  {
    AllOffered(p, order, max);
    ByIn(Pending(p, order, max), a, tx);
    ShareOf(p, order, a);
    SortKeeps(RunFor(p, a), tx);
    InRunExactly(p, a, tx);
  }

  lemma {:induction false} AllOffered(p: Pool, order: seq<Address>, max: nat)
    requires Listed(p, order) && max >= |Collect(p.bySender, order)|
    ensures Pending(p, order, max) == Sort(Collect(p.bySender, order))
  {
    var all := Collect(p.bySender, order);
    SortSorts(all);
    assert |Sort(all)| == |multiset(Sort(all))| == |all|;
  }

  lemma {:induction false} SortKeeps(s: seq<Tx>, tx: Tx)
    ensures tx in Sort(s) <==> tx in s
  {
    SortSorts(s);
    assert tx in Sort(s) <==> tx in multiset(Sort(s));
    assert tx in s <==> tx in multiset(s);
  }

  lemma InRun(p: Pool, a: Address, tx: Tx)
    requires Valid(p) && a in p.bySender && tx in RunOf(p.bySender[a])
    ensures tx.signer == Some(a) && Filed(p, tx) && NoGapBelow(p.bySender[a], tx.nonce)
  {
    var q := p.bySender[a];
    var run := RunOf(q);
    var low := Least(q.Keys);
    RunExactly(q);
    RunNonces(p, a);
    var j :| 0 <= j < |run| && run[j] == tx;
    assert At(q, low + j) == Some(run[j]);
    forall k: nat | low <= k <= tx.nonce
      ensures k in q
    {
      assert At(q, low + (k - low)) == Some(run[k - low]);
    }
    assert tx.nonce in q;
  }

  lemma OnRun(q: Queue, tx: Tx)
    requires tx.nonce in q && q[tx.nonce] == tx && NoGapBelow(q, tx.nonce)
    ensures tx in RunOf(q)
  {
    var run := RunOf(q);
    var low := Least(q.Keys);
    RunExactly(q);
    assert low + |run| > tx.nonce;
    var j := tx.nonce - low;
    assert At(q, low + j) == Some(run[j]);
  }

  lemma InRunExactly(p: Pool, a: Address, tx: Tx)
    requires Valid(p) && tx.signer == Some(a)
    ensures tx in RunFor(p, a) <==> Filed(p, tx) && NoGapBelow(p.bySender[a], tx.nonce)
  {
    if a in p.bySender {
      if tx in RunFor(p, a) {
        InRun(p, a, tx);
      }
      if Filed(p, tx) && NoGapBelow(p.bySender[a], tx.nonce) {
        OnRun(p.bySender[a], tx);
      }
    }
  }

  // ---------- A sender offered out of nonce order ----------

  function Dear(nonce: nat): Tx { Tx(nonce + 1, Some(7), nonce, Some(nonce + 1), 21000, true, Some(0)) }

  lemma {:induction false} TwoAdded()
    ensures var p := Run(Empty(10), [Added(Dear(0)), Added(Dear(1))]);
      p.bySender == map[7 := map[0 := Dear(0), 1 := Dear(1)]]
  {
    var es := [Added(Dear(0)), Added(Dear(1))];
    assert es[1..] == [Added(Dear(1))] && es[1..][1..] == [];
    var p1 := Add(Empty(10), Dear(0));
    assert p1 == Pool(map[1 := Dear(0)], map[7 := map[0 := Dear(0)]], 10);
    assert |p1.byHash| == 1;
    var p2 := Add(p1, Dear(1));
    assert p2.bySender == map[7 := map[0 := Dear(0), 1 := Dear(1)]];
    assert Run(p1, es[1..]) == p2;
  }

  lemma {:induction false} DearRun(q: Queue)
    requires q == map[0 := Dear(0), 1 := Dear(1)]
    ensures RunOf(q) == [Dear(0), Dear(1)]
  {
    assert 0 in q.Keys;
    assert Least(q.Keys) <= 0;
    assert From(q, 2) == [];
    assert From(q, 1) == [Dear(1)];
    assert From(q, 0) == [Dear(0)] + From(q, 1);
  }

  lemma {:induction false} DearSorted()
    ensures Sort([Dear(0), Dear(1)]) == [Dear(1), Dear(0)]
  {
    assert [Dear(0), Dear(1)][1..] == [Dear(1)] && [Dear(1)][1..] == [];
    assert Sort([Dear(1)]) == [Dear(1)];
    assert Insert(Dear(0), [Dear(1)]) == [Dear(1)] + Insert(Dear(0), []);
  }

  /** Two transactions of one sender, the second dearer: whatever the walk, the second is offered first. */
  lemma {:induction false} RisingPricesReverse(order: seq<Address>)
    requires Listed(Run(Empty(10), [Added(Dear(0)), Added(Dear(1))]), order)
    ensures Pending(Run(Empty(10), [Added(Dear(0)), Added(Dear(1))]), order, 1000) == [Dear(1), Dear(0)]
  {
    var m := map[7 := map[0 := Dear(0), 1 := Dear(1)]];
    TwoAdded();
    OneSender(order, m.Keys);
    assert [7][1..] == [];
    assert Collect(m, []) == [];
    DearRun(m[7]);
    assert Collect(m, [7]) == [Dear(0), Dear(1)];
    DearSorted();
  }

  lemma {:induction false} OneSender(order: seq<Address>, keys: set<Address>)
    requires IsOrder(order, keys) && keys == {7}
    ensures order == [7]
  {
    assert 7 in order;
    assert forall i :: 0 <= i < |order| ==> order[i] in keys;
    SetOfSize(order);
    assert SetOf(order) == {7};
  }
}

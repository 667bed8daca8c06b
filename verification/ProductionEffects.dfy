/** What is in a produced block: every header field, the chosen transactions and their gas. */
module ProductionEffects {
  import opened Wrappers
  import opened Arithmetic
  import opened Primitives
  import opened Poa
  import opened Chain
  import opened Production
  import TxPool

  /** `a` or `b`, whichever is later. */
  ghost predicate IsLater(t: nat, a: nat, b: nat) {
    t >= a && t >= b && (t == a || t == b)
  }

  /** The header names its parent, the producer and the rules, and is signed with the seal left empty. */
  ghost predicate HeaderOf(h: Header, parent: Header, key: Key, tick: nat, c: Clock) {
    && h.parentHash == OfHeader(parent) && h.number == parent.number + 1
    && IsLater(h.timestamp, c.now, parent.timestamp + c.period)
    && h.gameTick == tick && h.difficulty == 1 && h.beneficiary == key.address && h.gasLimit == 30_000_000
    && h.extraData == key.sign(OfHeader(h.(extraData := [])))
  }

  /** The gas of a list is that of its transactions: 21000 for a game action, its limit for any other. */
  lemma {:induction false} GasAdds(txs: seq<Tx>, tx: Tx)
    ensures GasSum([]) == 0
    ensures GasSum(txs + [tx]) == GasSum(txs) + if tx.isGame then 21000 else tx.gasLimit
  {
    GasSumAppend(txs, tx);
  }

  lemma {:induction false} ChosenWithin(parent: Header, key: Key, tick: nat, c: Clock, pending: seq<Tx>, k: nat)
    requires k == Chosen(pending, 30_000_000, 0)
    ensures var b := Built(parent, key, tick, c, pending);
      b.txs == pending[..k] && b.header.gasUsed == GasSum(pending[..k]) && HeaderOf(b.header, parent, key, tick, c)
  {
    var h := Prepared(parent, key.address, tick, c).(gasUsed := GasSum(pending[..k]));
    assert Built(parent, key, tick, c, pending).header == Sealed(h, key);
    assert h == Sealed(h, key).(extraData := []);
  }

  /**
   A built block holds the longest run from the front of the list that stays within 30 million gas, its
   header says how much that uses, and names parent, time, tick and producer.
   */
  lemma {:induction false} BuiltExactly(parent: Header, key: Key, tick: nat, c: Clock, pending: seq<Tx>)
    ensures var b := Built(parent, key, tick, c, pending);
      && HeaderOf(b.header, parent, key, tick, c)
      && b.txs <= pending
      && b.header.gasUsed == GasSum(b.txs) <= 30_000_000
      && (|b.txs| < |pending| ==> GasSum(b.txs + [pending[|b.txs|]]) > 30_000_000)
  {
    var k := Chosen(pending, 30_000_000, 0);
    ChosenWithin(parent, key, tick, c, pending, k);
    ChosenExactly(pending, 30_000_000, 0, k);
    if k < |pending| {
      ChosenExactly(pending, 30_000_000, 0, k + 1);
      assert pending[..k + 1] == pending[..k] + [pending[k]];
    }
  }

  /**
   An attempt gets as far as building only with a head and a validator's key, and the tick advances
   exactly then; the reason tells which is missing. A block that is taken is the new head, and holds at
   most 1000 transactions.
   */
  lemma {:induction false} ProducedExactly(rules: Rules, o: Oracles, s: State, key: Option<Key>, tick: nat, c: Clock,
                                           order: seq<Address>)
    requires forall a :: a in order ==> a in s.pool.bySender
    ensures var r := Produced(rules, o, s, key, tick, c, order);
      var able := s.head.Some? && key.Some? && key.value.address in rules.validators;
      && r.tick == tick + (if able then 1 else 0)
      && (!able ==>
            r.state == s && r.result == Err(if s.head.None? then NotInitialized else Consensus(NotValidator)))
      && (r.result.Err? ==> r.state == s.(accounts := r.state.accounts))
      && (r.result.Ok? ==>
            && able && r.state.head == Some(r.result.value.header)
            && HeaderOf(r.result.value.header, s.head.value, key.value, tick + 1, c)
            && |r.result.value.txs| <= 1000
            && r.result.value.header.gasUsed == GasSum(r.result.value.txs) <= 30_000_000)
  {
    if s.head.Some? && key.Some? && key.value.address in rules.validators {
      var pending := TxPool.Pending(s.pool, order, MAX_PENDING);
      BuiltExactly(s.head.value, key.value, tick + 1, c, pending);
      Taken(rules, o, s, Built(s.head.value, key.value, tick + 1, c, pending));
    }
  }

  lemma {:induction false} Taken(rules: Rules, o: Oracles, s: State, b: Block)
    ensures var out := Apply(rules, o, s, b);
      && (out.error.None? ==> out.state.head == Some(b.header))
      && (out.error.Some? ==> out.state == s.(accounts := out.state.accounts))
  {}
}

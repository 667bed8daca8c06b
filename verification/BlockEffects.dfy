/**
 What applying a block does to each account and which receipts it leaves, told account by account: the
 nonce moves by the actions that were taken, and each of them costs 21000 as long as the balance lasts.
 */
module BlockEffects {
  import opened Wrappers
  import opened Arithmetic
  import opened Sequences
  import opened Primitives
  import opened Poa
  import opened Storage
  import opened WorldState
  import opened Chain
  import opened TxPoolOrder
  import opened PoolToBlock
  import opened PoolRounds
  import opened ChainForks

  function BalanceOf(m: Accounts, a: Address): nat { GetOrCreate(m, a).balance }

  // ---------- One transaction, and lists of them ----------

  /** `tx` is signed by `a` and carries the nonce of its account. */
  predicate Holds(m: Accounts, tx: Tx, a: Address) {
    tx.signer == Some(a) && tx.nonce == NonceOf(m, a)
  }

  /** A game action costs its sender 21000 if its nonce holds and the balance covers it; nobody else pays. */
  lemma {:induction false} GameActionCosts(pr: Progress, tx: Tx, number: nat, a: Address)
    requires tx.isGame && tx.signer.Some? && !pr.failed
    ensures var out := GamePhase(pr, [tx], number);
      && !out.failed
      && BalanceOf(out.accounts, a) == BalanceOf(pr.accounts, a)
           - (if Holds(pr.accounts, tx, a) && BalanceOf(pr.accounts, a) >= 21000 then 21000 else 0)
      && NonceOf(out.accounts, a) == NonceOf(pr.accounts, a) + (if Holds(pr.accounts, tx, a) then 1 else 0)
      && (!Holds(pr.accounts, tx, a) ==> Get(out.accounts, a) == Get(pr.accounts, a))
  {
    OneGame(pr, tx, number);
  }

  lemma {:induction false} OneGame(pr: Progress, tx: Tx, number: nat)
    ensures GamePhase(pr, [tx], number) == if pr.failed then pr else GameStep(pr, tx, number)
  {
    assert GamePhase(GameStep(pr, tx, number), [], number) == GameStep(pr, tx, number);
  }

  /** A list is worked off one part after the other. */
  lemma {:induction false} GameSplits(pr: Progress, xs: seq<Tx>, ys: seq<Tx>, number: nat)
    ensures GamePhase(pr, xs + ys, number) == GamePhase(GamePhase(pr, xs, number), ys, number)
    decreases |xs|
  {
    if xs == [] {
      assert xs + ys == ys;
    } else if !pr.failed {
      assert (xs + ys)[0] == xs[0] && (xs + ys)[1..] == xs[1..] + ys;
      GameSplits(GameStep(pr, xs[0], number), xs[1..], ys, number);
    }
  }

  lemma {:induction false} EvmSplits(o: Oracles, loaded: Accounts, pr: Progress, xs: seq<Tx>, ys: seq<Tx>, number: nat)
    ensures EvmPhase(o, loaded, pr, xs + ys, number)
         == EvmPhase(o, loaded, EvmPhase(o, loaded, pr, xs, number), ys, number)
    decreases |xs|
  {
    if xs == [] {
      assert xs + ys == ys;
    } else if !pr.failed {
      assert (xs + ys)[0] == xs[0] && (xs + ys)[1..] == xs[1..] + ys;
      EvmSplits(o, loaded, EvmStep(o, loaded, pr, xs[0], number), xs[1..], ys, number);
    }
  }

  /** The price of `gas` units: 1 each where the transaction names no price. */
  function Fee(tx: Tx, gas: nat): nat {
    match tx.gasPrice
    case Some(p) => Product(p, gas)
    case None => gas
  }

  lemma FeeIs(tx: Tx, gas: nat)
    ensures Fee(tx, gas) == GasCost(tx, gas)
  {}

  /** The gas that the virtual machine reports for the last of `txs`, none if it refuses it. */
  function UsedBy(o: Oracles, loaded: Accounts, txs: seq<Tx>): nat {
    match o.exec(loaded, txs)
    case Some(out) => out.gasUsed
    case None => 0
  }

  function SuccessOf(o: Oracles, loaded: Accounts, txs: seq<Tx>): bool {
    match o.exec(loaded, txs)
    case Some(out) => out.success
    case None => false
  }

  /**
   Any other transaction runs only if its nonce holds. Then its sender's nonce moves and it pays for the
   gas it used, all or nothing; the receipt says how it went and nobody else is touched.
   */
  lemma {:induction false} EvmCosts(o: Oracles, loaded: Accounts, pr: Progress, tx: Tx, number: nat, a: Address)
    requires tx.signer.Some? && !pr.failed
    ensures var out := EvmPhase(o, loaded, pr, [tx], number);
      var held := Holds(pr.accounts, tx, tx.signer.value);
      var gas := if held then UsedBy(o, loaded, pr.executed + [tx]) else 0;
      var fee := Fee(tx, gas);
      && !out.failed && out.gas == pr.gas + gas
      && out.executed == (if held then pr.executed + [tx] else pr.executed)
      && out.receipts == pr.receipts + [Receipt(tx.hash, number, Digest(0), |pr.receipts|,
                                                held && SuccessOf(o, loaded, pr.executed + [tx]), gas, pr.gas + gas)]
      && NonceOf(out.accounts, a) == NonceOf(pr.accounts, a) + (if Holds(pr.accounts, tx, a) then 1 else 0)
      && BalanceOf(out.accounts, a) == BalanceOf(pr.accounts, a)
           - (if Holds(pr.accounts, tx, a) && fee <= BalanceOf(pr.accounts, a) then fee else 0)
      && (!Holds(pr.accounts, tx, a) ==> Get(out.accounts, a) == Get(pr.accounts, a))
  {
    assert [tx][1..] == [];
    var one := EvmStep(o, loaded, pr, tx, number);
    assert EvmPhase(o, loaded, one, [], number) == one;
    FeeIs(tx, UsedBy(o, loaded, pr.executed + [tx]));
  }

  // ---------- Every account over a whole list of game actions ----------

  /** How many game actions of `a` are taken if its nonce is `n`: those that carry on from the ones before. */
  function Taken(txs: seq<Tx>, a: Address, n: nat): nat {
    if txs == [] then 0
    else if txs[0].isGame && txs[0].signer == Some(a) && txs[0].nonce == n then 1 + Taken(txs[1..], a, n + 1)
    else Taken(txs[1..], a, n)
  }

  /** What is left of a balance after `k` charges of 21000, each dropped if it cannot be paid. */
  function LeftOf(balance: nat, k: nat): nat
    decreases k
  {
    if k == 0 then balance else LeftOf(if balance >= 21000 then balance - 21000 else balance, k - 1)
  }

  /** As many of the charges are paid as the balance covers. */
  lemma {:induction false} LeftOfExactly(balance: nat, k: nat)
    ensures LeftOf(balance, k) == balance - 21000 * Min(k, balance / 21000)
    decreases k
  {
    if k > 0 {
      var left := if balance >= 21000 then balance - 21000 else balance;
      LeftOfExactly(left, k - 1);
      assert balance >= 21000 ==> left / 21000 == balance / 21000 - 1;
      assert balance < 21000 ==> balance / 21000 == 0;
    }
  }

  /** `a` had `k` actions taken: its nonce moved by them and its balance paid for as many as it covered. */
  ghost predicate Charges(before: Accounts, after: Accounts, a: Address, k: nat) {
    && NonceOf(after, a) == NonceOf(before, a) + k
    && BalanceOf(after, a) == LeftOf(BalanceOf(before, a), k)
    && (k == 0 ==> Get(after, a) == Get(before, a))
  }

  lemma ChargedFirst(m0: Accounts, m1: Accounts, m2: Accounts, a: Address, held: bool, k: nat)
    requires NonceOf(m1, a) == NonceOf(m0, a) + if held then 1 else 0
    requires BalanceOf(m1, a) == BalanceOf(m0, a) - if held && BalanceOf(m0, a) >= 21000 then 21000 else 0
    requires !held ==> Get(m1, a) == Get(m0, a)
    requires Charges(m1, m2, a, k)
    ensures Charges(m0, m2, a, k + if held then 1 else 0)
  {
    var balance := BalanceOf(m0, a);
    assert held ==> LeftOf(balance, k + 1) == LeftOf(if balance >= 21000 then balance - 21000 else balance, k);
  }

  /**
   Each account on its own: its nonce moves by its taken actions, its balance pays for as many of them as
   it covers, and an account with none is as it was. The other accounts play no part.
   */
  lemma {:induction false} GameCosts(pr: Progress, txs: seq<Tx>, number: nat, a: Address)
    requires !GamePhase(pr, txs, number).failed
    ensures Charges(pr.accounts, GamePhase(pr, txs, number).accounts, a, Taken(txs, a, NonceOf(pr.accounts, a)))
    decreases |txs|
  {
    if txs == [] {
      assert Charges(pr.accounts, pr.accounts, a, 0);
    } else {
      var one := GamePhase(pr, [txs[0]], number);
      GameFirst(pr, txs, number);
      GameCosts(one, txs[1..], number, a);
      FirstCharged(pr, one, txs, number, a, GamePhase(one, txs[1..], number).accounts);
    }
  }

  lemma {:induction false} GameFirst(pr: Progress, txs: seq<Tx>, number: nat)
    requires txs != []
    ensures GamePhase(pr, txs, number) == GamePhase(GamePhase(pr, [txs[0]], number), txs[1..], number)
    ensures GamePhase(pr, [txs[0]], number).failed ==> GamePhase(pr, txs, number).failed
  {
    assert txs == [txs[0]] + txs[1..];
    GameSplits(pr, [txs[0]], txs[1..], number);
  }

  lemma {:induction false} FirstCharged(pr: Progress, one: Progress, txs: seq<Tx>, number: nat, a: Address,
                                        after: Accounts)
    requires txs != [] && one == GamePhase(pr, [txs[0]], number) && !one.failed
    requires Charges(one.accounts, after, a, Taken(txs[1..], a, NonceOf(one.accounts, a)))
    ensures Charges(pr.accounts, after, a, Taken(txs, a, NonceOf(pr.accounts, a)))
  {
    OneGame(pr, txs[0], number);
    if txs[0].isGame {
      GameActionCosts(pr, txs[0], number, a);
      ChargedFirst(pr.accounts, one.accounts, after, a, Holds(pr.accounts, txs[0], a),
                   Taken(txs[1..], a, NonceOf(one.accounts, a)));
    }
  }

  /** From the nonce on, all of a sender's actions are taken. */
  lemma {:induction false} AllTaken(txs: seq<Tx>, a: Address, n: nat)
    requires AllGame(txs) && Consecutive(By(txs, a), n)
    ensures Taken(txs, a, n) == |By(txs, a)|
  {
    if txs != [] {
      var rest := By(txs[1..], a);
      if txs[0].signer == Some(a) {
        assert By(txs, a)[0] == txs[0];
        forall j | 0 <= j < |rest|
          ensures rest[j].nonce == n + 1 + j
        {
          assert By(txs, a)[j + 1] == rest[j];
        }
        AllTaken(txs[1..], a, n + 1);
      } else {
        AllTaken(txs[1..], a, n);
      }
    }
  }

  /** A ready list: every action of `a` counts, and each costs 21000 as long as the balance lasts. */
  lemma {:induction false} ReadyCosts(pr: Progress, txs: seq<Tx>, number: nat, a: Address)
    requires AllGame(txs) && !pr.failed && Ready(pr.accounts, txs)
    ensures Charges(pr.accounts, GamePhase(pr, txs, number).accounts, a, |By(txs, a)|)
  {
    GameReceipts(pr, txs, number);
    GameCosts(pr, txs, number, a);
    AllTaken(txs, a, NonceOf(pr.accounts, a));
  }

  /** An action succeeds exactly when its nonce is the one its sender has reached before it. */
  lemma {:induction false} SucceedsExactly(pr: Progress, txs: seq<Tx>, number: nat, i: nat)
    requires AllGame(txs) && !pr.failed && i < |txs|
    ensures |GamePhase(pr, txs, number).receipts| == |pr.receipts| + |txs|
    ensures var a := txs[i].signer.value; var n := NonceOf(pr.accounts, a);
      GamePhase(pr, txs, number).receipts[|pr.receipts| + i].success <==> txs[i].nonce == n + Taken(txs[..i], a, n)
  {
    var a := txs[i].signer.value;
    var mid := GamePhase(pr, txs[..i], number);
    var next := GamePhase(mid, [txs[i]], number);
    assert txs == txs[..i] + txs[i..] && txs[i..] == [txs[i]] + txs[i + 1..];
    GameSplits(pr, txs[..i], txs[i..], number);
    GameSplits(mid, [txs[i]], txs[i + 1..], number);
    GameReceipts(pr, txs, number);
    GameReceipts(pr, txs[..i], number);
    GameReceipts(mid, [txs[i]], number);
    GameReceipts(next, txs[i + 1..], number);
    OneGame(mid, txs[i], number);
    GameCosts(pr, txs[..i], number, a);
    assert GamePhase(pr, txs, number).receipts[|mid.receipts|] == next.receipts[|mid.receipts|];
  }

  // ---------- The parts of a block ----------

  function GamesOf(txs: seq<Tx>): seq<Tx> {
    if txs == [] then [] else if txs[0].isGame then [txs[0]] + GamesOf(txs[1..]) else GamesOf(txs[1..])
  }

  /** Every transaction is in exactly one of the two parts, as often as in the block. */
  lemma {:induction false} PartsOfBlock(txs: seq<Tx>)
    ensures multiset(EvmOf(txs)) + multiset(GamesOf(txs)) == multiset(txs)
    ensures |EvmOf(txs)| + |GamesOf(txs)| == |txs|
    ensures forall tx :: tx in EvmOf(txs) ==> !tx.isGame
    ensures forall tx :: tx in GamesOf(txs) ==> tx.isGame
  {
    if txs != [] {
      PartsOfBlock(txs[1..]);
      assert txs == [txs[0]] + txs[1..];
    }
  }

  /** Both parts keep the order of the block. */
  lemma {:induction false} PartsInOrder(xs: seq<Tx>, ys: seq<Tx>)
    ensures EvmOf(xs + ys) == EvmOf(xs) + EvmOf(ys)
    ensures GamesOf(xs + ys) == GamesOf(xs) + GamesOf(ys)
    decreases |xs|
  {
    if xs == [] {
      assert xs + ys == ys;
    } else {
      assert (xs + ys)[0] == xs[0] && (xs + ys)[1..] == xs[1..] + ys;
      PartsInOrder(xs[1..], ys);
    }
  }

  /** The game actions with a payload that the world sees: each by its signer, in the order of the block. */
  lemma {:induction false} ActionsInOrder(xs: seq<Tx>, ys: seq<Tx>)
    requires ActionsOf(xs).Some? && ActionsOf(ys).Some?
    ensures ActionsOf(xs + ys) == Some(ActionsOf(xs).value + ActionsOf(ys).value)
    decreases |xs|
  {
    if xs == [] {
      assert xs + ys == ys;
      assert ActionsOf(xs).value + ActionsOf(ys).value == ActionsOf(ys).value;
    } else {
      assert (xs + ys)[0] == xs[0] && (xs + ys)[1..] == xs[1..] + ys;
      ActionsInOrder(xs[1..], ys);
      if xs[0].isGame && xs[0].action.Some? {
        var one := [Action(xs[0].signer.value, xs[0].action.value)];
        Reassociate(one, ActionsOf(xs[1..]).value, ActionsOf(ys).value);
      }
    }
  }

  lemma ActionOfOne(tx: Tx)
    requires tx.isGame && tx.action.Some? && tx.signer.Some?
    ensures ActionsOf([tx]) == Some([Action(tx.signer.value, tx.action.value)])
  {
    var one := [Action(tx.signer.value, tx.action.value)];
    assert [tx][1..] == [] && one + [] == one;
  }

  /** Receipts `from` on are for `txs`, in order and in place. */
  ghost predicate ReceiptsFor(rs: seq<Receipt>, from: nat, txs: seq<Tx>, number: nat) {
    && |rs| == from + |txs|
    && forall i :: 0 <= i < |txs| ==> IsReceiptOf(rs[from + i], txs[i], number, from + i)
  }

  ghost predicate IsReceiptOf(r: Receipt, tx: Tx, number: nat, index: nat) {
    r.txHash == tx.hash && r.blockNumber == number && r.index == index
  }

  lemma ReceiptsCons(before: seq<Receipt>, one: seq<Receipt>, all: seq<Receipt>, tx: Tx, txs: seq<Tx>, number: nat)
    requires before <= one <= all && |one| == |before| + 1 && IsReceiptOf(one[|before|], tx, number, |before|)
    requires ReceiptsFor(all, |one|, txs, number)
    ensures ReceiptsFor(all, |before|, [tx] + txs, number)
  {
    forall i | 0 <= i < |txs| + 1
      ensures IsReceiptOf(all[|before| + i], ([tx] + txs)[i], number, |before| + i)
    {
      if i > 0 {
        assert IsReceiptOf(all[|one| + (i - 1)], txs[i - 1], number, |one| + (i - 1));
      }
    }
  }

  lemma {:induction false} GameOrder(pr: Progress, txs: seq<Tx>, number: nat)
    requires !GamePhase(pr, txs, number).failed
    ensures var rs := GamePhase(pr, txs, number).receipts;
      pr.receipts <= rs && ReceiptsFor(rs, |pr.receipts|, GamesOf(txs), number)
    decreases |txs|
  {
    if txs != [] {
      var one := GameStep(pr, txs[0], number);
      GameOrder(one, txs[1..], number);
      if txs[0].isGame {
        ReceiptsCons(pr.receipts, one.receipts, GamePhase(pr, txs, number).receipts, txs[0], GamesOf(txs[1..]), number);
      }
    }
  }

  lemma {:induction false} EvmOrder(o: Oracles, loaded: Accounts, pr: Progress, txs: seq<Tx>, number: nat)
    requires !EvmPhase(o, loaded, pr, txs, number).failed
    ensures var rs := EvmPhase(o, loaded, pr, txs, number).receipts;
      pr.receipts <= rs && ReceiptsFor(rs, |pr.receipts|, txs, number)
    decreases |txs|
  {
    if txs != [] {
      var one := EvmStep(o, loaded, pr, txs[0], number);
      EvmOrder(o, loaded, one, txs[1..], number);
      assert txs == [txs[0]] + txs[1..];
      ReceiptsCons(pr.receipts, one.receipts, EvmPhase(o, loaded, pr, txs, number).receipts, txs[0], txs[1..], number);
    }
  }

  lemma ReceiptsAppend(first: seq<Receipt>, all: seq<Receipt>, xs: seq<Tx>, ys: seq<Tx>, number: nat)
    requires first <= all && ReceiptsFor(first, 0, xs, number) && ReceiptsFor(all, |first|, ys, number)
    ensures ReceiptsFor(all, 0, xs + ys, number)
  {
    forall i | 0 <= i < |xs + ys|
      ensures IsReceiptOf(all[0 + i], (xs + ys)[i], number, 0 + i)
    {
      if i < |xs| {
        assert IsReceiptOf(first[0 + i], xs[i], number, 0 + i);
      } else {
        var j := i - |xs|;
        assert IsReceiptOf(all[|first| + j], ys[j], number, |first| + j);
      }
    }
  }

  /** A block leaves one receipt for each transaction: those of the virtual machine first, then the game's. */
  lemma {:induction false} ReceiptsInOrder(o: Oracles, m: Accounts, txs: seq<Tx>, actions: nat, number: nat)
    requires !Processed(o, m, txs, actions, number).failed
    ensures var rs := Processed(o, m, txs, actions, number).receipts;
      |rs| == |txs| && ReceiptsFor(rs, 0, EvmOf(txs) + GamesOf(txs), number)
  {
    var start := Progress(m, [], FlatGas(actions), [], false);
    var evm := EvmPhase(o, m, start, EvmOf(txs), number);
    var mid := Flushed(o, m, evm, EvmOf(txs));
    EvmOrder(o, m, start, EvmOf(txs), number);
    GameOrder(mid, txs, number);
    ReceiptsAppend(evm.receipts, GamePhase(mid, txs, number).receipts, EvmOf(txs), GamesOf(txs), number);
    PartsOfBlock(txs);
  }

  // ---------- Applied blocks ----------

  /** The accounts between the two halves of a block: what the virtual machine's half leaves. */
  ghost function HalfWay(o: Oracles, m: Accounts, b: Block): Accounts {
    var start := Progress(m, [], FlatGas(|ActionsFor(b.txs)|), [], false);
    var evm := EvmPhase(o, m, start, EvmOf(b.txs), b.header.number);
    if EvmOf(b.txs) == [] then m else evm.accounts + o.flush(m, EvmOf(b.txs), evm.executed)
  }

  /**
   After any applied block, each account has paid 21000 for each of its taken game actions as long as its
   balance lasted, counted from what the virtual machine's half left; and that is what is committed.
   */
  lemma {:induction false} AppliedCosts(rules: Rules, o: Oracles, s: State, b: Block, a: Address)
    requires Apply(rules, o, s, b).error.None?
    ensures var t := Apply(rules, o, s, b).state; var m := HalfWay(o, s.accounts, b);
      && Charges(m, t.accounts, a, Taken(b.txs, a, NonceOf(m, a)))
      && t.stored == t.accounts
  {
    var start := Progress(s.accounts, [], FlatGas(|ActionsFor(b.txs)|), [], false);
    var evm := EvmPhase(o, s.accounts, start, EvmOf(b.txs), b.header.number);
    var mid := Flushed(o, s.accounts, evm, EvmOf(b.txs));
    assert mid.accounts == HalfWay(o, s.accounts, b);
    GameCosts(mid, b.txs, b.header.number, a);
  }

  /** After an applied block of game actions each sender has paid 21000 a time, counted from before the block. */
  lemma {:induction false} GameBlockCosts(rules: Rules, o: Oracles, s: State, b: Block, a: Address)
    requires Apply(rules, o, s, b).error.None? && AllGame(b.txs)
    ensures var t := Apply(rules, o, s, b).state;
      var k := Taken(b.txs, a, NonceOf(s.accounts, a));
      && NonceOf(t.accounts, a) == NonceOf(s.accounts, a) + k
      && BalanceOf(t.accounts, a) == BalanceOf(s.accounts, a) - 21000 * Min(k, BalanceOf(s.accounts, a) / 21000)
      && (k == 0 ==> Get(t.accounts, a) == Get(s.accounts, a))
      && (Ready(s.accounts, b.txs) ==> k == |By(b.txs, a)|)
  {
    var k := Taken(b.txs, a, NonceOf(s.accounts, a));
    NoEvm(b.txs);
    AppliedCosts(rules, o, s, b, a);
    LeftOfExactly(BalanceOf(s.accounts, a), k);
    if Ready(s.accounts, b.txs) {
      AllTaken(b.txs, a, NonceOf(s.accounts, a));
    }
  }

  // ---------- Failed blocks ----------

  /** The first transaction without a signer, among game actions only or all. */
  ghost predicate FirstUnsigned(txs: seq<Tx>, i: nat, game: bool) {
    && i < |txs| && txs[i].signer.None? && (game ==> txs[i].isGame)
    && forall j :: 0 <= j < i ==> txs[j].signer.Some? || (game && !txs[j].isGame)
  }

  /** The virtual machine's half ends at a transaction without a signer, after what came before it. */
  lemma {:induction false} EvmStops(o: Oracles, loaded: Accounts, pr: Progress, txs: seq<Tx>, number: nat, i: nat)
    requires !pr.failed && FirstUnsigned(txs, i, false)
    ensures EvmPhase(o, loaded, pr, txs, number).failed
    ensures EvmPhase(o, loaded, pr, txs, number).accounts == EvmPhase(o, loaded, pr, txs[..i], number).accounts
    decreases |txs|
  {
    var one := EvmStep(o, loaded, pr, txs[0], number);
    if i > 0 {
      assert txs[..i][0] == txs[0] && txs[..i][1..] == txs[1..][..i - 1];
      assert forall j :: 0 <= j < i - 1 ==> txs[1..][j] == txs[j + 1];
      EvmStops(o, loaded, one, txs[1..], number, i - 1);
    } else {
      assert EvmPhase(o, loaded, one, txs[1..], number) == one;
    }
  }

  lemma {:induction false} GameStops(pr: Progress, txs: seq<Tx>, number: nat, i: nat)
    requires !pr.failed && FirstUnsigned(txs, i, true)
    ensures GamePhase(pr, txs, number).failed
    ensures GamePhase(pr, txs, number).accounts == GamePhase(pr, txs[..i], number).accounts
    decreases |txs|
  {
    var one := GameStep(pr, txs[0], number);
    if i > 0 {
      assert txs[..i][0] == txs[0] && txs[..i][1..] == txs[1..][..i - 1];
      assert forall j :: 0 <= j < i - 1 ==> txs[1..][j] == txs[j + 1];
      GameStops(one, txs[1..], number, i - 1);
    } else {
      assert GamePhase(one, txs[1..], number) == one;
    }
  }

  /**
   A failed block changes nothing but the uncommitted accounts. Those are touched only if a sender turns
   out to be missing half way, or if the game world fails: then every account is as after a success.
   */
  lemma {:induction false} FailedLeaves(rules: Rules, o: Oracles, s: State, b: Block, a: Address)
    requires Apply(rules, o, s, b).error.Some?
    ensures var out := Apply(rules, o, s, b); var t := out.state;
      && t == s.(accounts := t.accounts)
      && (out.error.value.NotInitialized? || out.error.value.Consensus? || ActionsOf(b.txs).None? ==> t == s)
      && (out.error.value.TickFailed? ==>
            var m := HalfWay(o, s.accounts, b); Charges(m, t.accounts, a, Taken(b.txs, a, NonceOf(m, a))))
  {
    if Apply(rules, o, s, b).error.value.TickFailed? {
      var start := Progress(s.accounts, [], FlatGas(|ActionsFor(b.txs)|), [], false);
      var evm := EvmPhase(o, s.accounts, start, EvmOf(b.txs), b.header.number);
      GameCosts(Flushed(o, s.accounts, evm, EvmOf(b.txs)), b.txs, b.header.number, a);
    }
  }

  /** The reason a block is refused for: each exactly when it applies and none before it does. */
  lemma {:induction false} FailedFor(rules: Rules, o: Oracles, s: State, b: Block)
    ensures var e := Apply(rules, o, s, b).error;
      && (s.head.None? ==> e == Some(NotInitialized))
      && (s.head.Some? ==>
            var invalid := VerifyBlock(rules.recover, rules.validators, b, s.head.value);
            && (invalid.Some? ==> e == Some(Consensus(invalid.value)))
            && (invalid.None? && !AllSigned(b.txs) ==> e == Some(SenderRecovery))
            && (invalid.None? && AllSigned(b.txs) && !Ticks(o, b.txs) ==> e == Some(TickFailed))
            && (invalid.None? && AllSigned(b.txs) && Ticks(o, b.txs) ==> e == None))
  {
    if ActionsOf(b.txs).Some? {
      ProcessedFails(o, s.accounts, b.txs, |ActionsOf(b.txs).value|, b.header.number);
    } else if AllSigned(b.txs) {
      ActionsSigned(b.txs);
    }
  }

  /** With a sender missing, the accounts keep what the transactions of the virtual machine before it did. */
  lemma {:induction false} UnsignedLeaves(rules: Rules, o: Oracles, s: State, b: Block, i: nat)
    requires s.head.Some? && VerifyBlock(rules.recover, rules.validators, b, s.head.value).None?
    requires ActionsOf(b.txs).Some? && FirstUnsigned(EvmOf(b.txs), i, false)
    ensures Apply(rules, o, s, b).error == Some(SenderRecovery)
    ensures var start := Progress(s.accounts, [], 21000 * |ActionsFor(b.txs)|, [], false);
      Apply(rules, o, s, b).state.accounts ==
        EvmPhase(o, s.accounts, start, EvmOf(b.txs)[..i], b.header.number).accounts
  {
    var start := Progress(s.accounts, [], FlatGas(|ActionsFor(b.txs)|), [], false);
    EvmStops(o, s.accounts, start, EvmOf(b.txs), b.header.number, i);
  }

  /** If it is the sender of a game action, all of those and the game actions before it. */
  lemma {:induction false} UnsignedGameLeaves(rules: Rules, o: Oracles, s: State, b: Block, i: nat)
    requires s.head.Some? && VerifyBlock(rules.recover, rules.validators, b, s.head.value).None?
    requires ActionsOf(b.txs).Some? && AllSigned(EvmOf(b.txs)) && FirstUnsigned(b.txs, i, true)
    ensures Apply(rules, o, s, b).error == Some(SenderRecovery)
    ensures var mid := Progress(HalfWay(o, s.accounts, b), [], 0, [], false);
      Apply(rules, o, s, b).state.accounts == GamePhase(mid, b.txs[..i], b.header.number).accounts
  {
    var n := b.header.number;
    var start := Progress(s.accounts, [], FlatGas(|ActionsFor(b.txs)|), [], false);
    var flushed := Flushed(o, s.accounts, EvmPhase(o, s.accounts, start, EvmOf(b.txs), n), EvmOf(b.txs));
    EvmFails(o, s.accounts, start, EvmOf(b.txs), n);
    GameStops(flushed, b.txs, n, i);
    SameAccounts(flushed, Progress(flushed.accounts, [], 0, [], false), b.txs[..i], n);
  }

  /** Receipts and gas so far play no part in what game actions do to the accounts. */
  lemma {:induction false} SameAccounts(pr: Progress, qr: Progress, txs: seq<Tx>, number: nat)
    requires pr.accounts == qr.accounts && pr.failed == qr.failed
    ensures GamePhase(pr, txs, number).accounts == GamePhase(qr, txs, number).accounts
    decreases |txs|
  {
    if txs != [] {
      SameAccounts(GameStep(pr, txs[0], number), GameStep(qr, txs[0], number), txs[1..], number);
    }
  }

  /** Every transaction of an applied block can be looked up by its receipt, which names this block. */
  lemma {:induction false} AppliedReceipts(rules: Rules, o: Oracles, s: State, b: Block, i: nat)
    requires Apply(rules, o, s, b).error.None? && i < |b.txs|
    ensures var t := Apply(rules, o, s, b).state; var h := b.txs[i].hash;
      && h in t.receipts && t.receipts[h].txHash == h
      && t.receipts[h].blockHash == OfHeader(b.header) && t.receipts[h].blockNumber == b.header.number
  {
    var actions := |ActionsFor(b.txs)|;
    var rs := Processed(o, s.accounts, b.txs, actions, b.header.number).receipts;
    ReceiptsInOrder(o, s.accounts, b.txs, actions, b.header.number);
    InAPart(b.txs, i);
    ReceiptStored(s.receipts, rs, EvmOf(b.txs) + GamesOf(b.txs), b.header, b.txs[i]);
  }

  lemma {:induction false} ReceiptStored(m: map<TxHash, Receipt>, rs: seq<Receipt>, txs: seq<Tx>, header: Header,
                                         tx: Tx)
    requires ReceiptsFor(rs, 0, txs, header.number) && tx in txs
    ensures var t := WithReceipts(m, Stamped(rs, HashOf(header)));
      && tx.hash in t && t[tx.hash].txHash == tx.hash
      && t[tx.hash].blockHash == OfHeader(header) && t[tx.hash].blockNumber == header.number
  {
    var stamped := Stamped(rs, HashOf(header));
    var j :| 0 <= j < |txs| && txs[j] == tx;
    assert IsReceiptOf(rs[0 + j], txs[j], header.number, 0 + j);
    assert stamped[j].txHash == tx.hash;
    LaterReceipt(m, stamped, tx.hash);
    var r := WithReceipts(m, stamped)[tx.hash];
    var k :| 0 <= k < |stamped| && stamped[k] == r;
    assert IsReceiptOf(rs[0 + k], txs[k], header.number, 0 + k);
  }

  lemma {:induction false} InAPart(txs: seq<Tx>, i: nat)
    requires i < |txs|
    ensures txs[i] in EvmOf(txs) + GamesOf(txs)
  {
    PartsOfBlock(txs);
    assert txs[i] in multiset(txs);
    assert txs[i] in multiset(EvmOf(txs)) || txs[i] in multiset(GamesOf(txs));
  }
}

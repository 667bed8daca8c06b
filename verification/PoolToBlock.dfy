/**
 From the pool into a block: when every chosen game action passes the nonce check, what that does to
 the nonces, and that the pool is then ready for the next block.
 */
module PoolToBlock {
  import opened Wrappers
  import opened OrderedKeys
  import opened Primitives
  import opened Poa
  import opened Storage
  import opened WorldState
  import opened Chain
  import opened TxPool
  import opened TxPoolOrder
  import opened Production

  function NonceOf(m: Accounts, a: Address): nat { GetOrCreate(m, a).nonce }

  ghost predicate Consecutive(s: seq<Tx>, n: nat) {
    forall j :: 0 <= j < |s| ==> s[j].nonce == n + j
  }

  /** Every sender's transactions carry on from its account nonce. */
  ghost predicate Ready(m: Accounts, txs: seq<Tx>) {
    forall a: Address :: Consecutive(By(txs, a), NonceOf(m, a))
  }

  ghost predicate AllGame(txs: seq<Tx>) {
    forall i :: 0 <= i < |txs| ==> txs[i].isGame && txs[i].signer.Some?
  }

  ghost predicate AllSucceed(rs: seq<Receipt>) {
    forall i :: 0 <= i < |rs| ==> rs[i].success
  }

  // ---------- The nonce check on a list of game actions ----------

  lemma {:induction false} GameReceipts(pr: Progress, txs: seq<Tx>, number: nat)
    requires AllGame(txs) && !pr.failed
    ensures var out := GamePhase(pr, txs, number);
      && !out.failed && |out.receipts| == |pr.receipts| + |txs| && pr.receipts <= out.receipts
      && forall i :: 0 <= i < |txs| ==>
          IsGameReceipt(out.receipts[|pr.receipts| + i], txs[i], number, |pr.receipts| + i,
                                                      pr.gas + FlatGas(i + 1))
    decreases |txs|
  {
    if txs != [] {
      var one := GameStep(pr, txs[0], number);
      GameReceipts(one, txs[1..], number);
      var out := GamePhase(pr, txs, number);
      forall i | 0 <= i < |txs|
        ensures IsGameReceipt(out.receipts[|pr.receipts| + i], txs[i], number, |pr.receipts| + i,
            pr.gas + FlatGas(i + 1))
      {
        if i == 0 {
          assert out.receipts[|pr.receipts|] == one.receipts[|pr.receipts|];
        } else {
          assert txs[i] == txs[1..][i - 1];
          assert out.receipts[|one.receipts| + (i - 1)] == out.receipts[|pr.receipts| + i];
        }
      }
    }
  }

  /** The receipt of a game action: a flat charge on top of the running total, whether or not it succeeded. */
  ghost predicate IsGameReceipt(r: Receipt, tx: Tx, number: nat, index: nat, gas: nat) {
    r.txHash == tx.hash && r.blockNumber == number && r.index == index && r.gasUsed == GAME_GAS
        && r.cumulativeGas == gas
  }

  lemma {:induction false} ByHead(txs: seq<Tx>, a: Address)
    requires txs != [] && txs[0].signer == Some(a)
    ensures By(txs, a) == [txs[0]] + By(txs[1..], a)
  {}

  /** Being ready is: the first has its account's nonce, and the rest is ready once that nonce is used. */
  lemma ReadyFirst(m: Accounts, m': Accounts, txs: seq<Tx>, a: Address)
    requires txs != [] && txs[0].signer == Some(a)
    requires NonceOf(m', a) == NonceOf(m, a) + 1
    requires forall b :: b != a ==> NonceOf(m', b) == NonceOf(m, b)
    ensures Ready(m, txs) <==> txs[0].nonce == NonceOf(m, a) && Ready(m', txs[1..])
  {
    var rest := By(txs[1..], a);
    ByHead(txs, a);
    if Ready(m, txs) {
      assert Consecutive(By(txs, a), NonceOf(m, a));
      assert By(txs, a)[0].nonce == NonceOf(m, a);
      forall b: Address
        ensures Consecutive(By(txs[1..], b), NonceOf(m', b))
      {
        assert Consecutive(By(txs, b), NonceOf(m, b));
        if b == a {
          forall j | 0 <= j < |rest|
            ensures rest[j].nonce == NonceOf(m', a) + j
          {
            assert By(txs, a)[j + 1] == rest[j];
          }
        }
      }
    }
    if txs[0].nonce == NonceOf(m, a) && Ready(m', txs[1..]) {
      forall b: Address
        ensures Consecutive(By(txs, b), NonceOf(m, b))
      {
        assert Consecutive(By(txs[1..], b), NonceOf(m', b));
        if b == a {
          forall j | 0 <= j < |By(txs, a)|
            ensures By(txs, a)[j].nonce == NonceOf(m, a) + j
          {
            assert j > 0 ==> By(txs, a)[j] == rest[j - 1];
          }
        }
      }
    }
  }

  lemma StepNonces(pr: Progress, tx: Tx, number: nat, b: Address)
    requires tx.isGame && tx.signer.Some?
    ensures var a := tx.signer.value; var one := GameStep(pr, tx, number);
      NonceOf(one.accounts, b) == NonceOf(pr.accounts, b)
          + if b == a && tx.nonce == NonceOf(pr.accounts, a) then 1 else 0
  {}

  ghost predicate NewSucceed(rs: seq<Receipt>, from: nat) {
    forall i :: from <= i < |rs| ==> rs[i].success
  }

  /**
   Every action on the list succeeds exactly when each sender's actions carry on from its nonce; and
   then each sender's nonce grows by the number of its actions.
   */
  lemma {:induction false} AllSucceedExactly(pr: Progress, txs: seq<Tx>, number: nat)
    requires AllGame(txs) && !pr.failed
    ensures NewSucceed(GamePhase(pr, txs, number).receipts, |pr.receipts|) <==> Ready(pr.accounts, txs)
    ensures Ready(pr.accounts, txs) ==> forall a ::
      NonceOf(GamePhase(pr, txs, number).accounts, a) == NonceOf(pr.accounts, a) + |By(txs, a)|
    decreases |txs|
  {
    if txs == [] {
      forall a: Address
        ensures Consecutive(By(txs, a), NonceOf(pr.accounts, a))
      {}
    } else {
      var a := txs[0].signer.value;
      var one := GameStep(pr, txs[0], number);
      var out := GamePhase(pr, txs, number);
      GameReceipts(one, txs[1..], number);
      assert out.receipts[|pr.receipts|] == one.receipts[|pr.receipts|];
      forall b
        ensures NonceOf(one.accounts, b) == NonceOf(pr.accounts, b)
            + if b == a && txs[0].nonce == NonceOf(pr.accounts, a) then 1 else 0
      {
        StepNonces(pr, txs[0], number, b);
      }
      AllSucceedExactly(one, txs[1..], number);
      if txs[0].nonce == NonceOf(pr.accounts, a) {
        ReadyFirst(pr.accounts, one.accounts, txs, a);
      } else {
        NotReady(pr.accounts, txs, a);
      }
    }
  }

  lemma NotReady(m: Accounts, txs: seq<Tx>, a: Address)
    requires txs != [] && txs[0].signer == Some(a) && txs[0].nonce != NonceOf(m, a)
    ensures !Ready(m, txs)
  {
    ByHead(txs, a);
    assert By(txs, a)[0].nonce != NonceOf(m, a) + 0;
    assert !Consecutive(By(txs, a), NonceOf(m, a));
  }
}

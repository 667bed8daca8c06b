/** The gas totals in the receipts of a block, whatever the block holds. */
module Receipts {
  import opened Wrappers
  import opened Primitives
  import opened Storage
  import opened Chain

  function GasUsed(rs: seq<Receipt>): nat {
    if rs == [] then 0 else GasUsed(rs[..|rs| - 1]) + rs[|rs| - 1].gasUsed
  }

  /** Every receipt's total is `base` plus the gas used up to it and by it, and so is the running total. */
  ghost predicate Totalled(pr: Progress, base: nat) {
    && pr.gas == base + GasUsed(pr.receipts)
    && forall i :: 0 <= i < |pr.receipts| ==> TotalAt(pr.receipts, base, i)
  }

  ghost predicate TotalAt(rs: seq<Receipt>, base: nat, i: nat)
    requires i < |rs|
  {
    rs[i].cumulativeGas == base + GasUsed(rs[..i + 1])
  }

  lemma {:induction false} NoteTotals(rs: seq<Receipt>, tx: Tx, number: nat, ok: bool, used: nat, gas: nat, base: nat)
    requires gas == base + GasUsed(rs) + used
    requires forall i :: 0 <= i < |rs| ==> TotalAt(rs, base, i)
    ensures var more := Note(rs, tx, number, ok, used, gas);
      && GasUsed(more) == GasUsed(rs) + used
      && forall i :: 0 <= i < |more| ==> TotalAt(more, base, i)
  {
    var more := Note(rs, tx, number, ok, used, gas);
    assert more[..|more| - 1] == rs;
    forall i | 0 <= i < |more|
      ensures TotalAt(more, base, i)
    {
      if i < |rs| {
        assert TotalAt(rs, base, i);
        assert more[..i + 1] == rs[..i + 1];
      } else {
        assert more[..i + 1] == more;
      }
    }
  }

  lemma {:induction false} EvmStepTotals(o: Oracles, loaded: Accounts, pr: Progress, tx: Tx, number: nat, base: nat)
    requires Totalled(pr, base)
    ensures Totalled(EvmStep(o, loaded, pr, tx, number), base)
  {
    var next := EvmStep(o, loaded, pr, tx, number);
    if |next.receipts| > |pr.receipts| {
      var r := next.receipts[|pr.receipts|];
      NoteTotals(pr.receipts, tx, number, r.success, r.gasUsed, next.gas, base);
    }
  }

  lemma {:induction false} GameStepTotals(pr: Progress, tx: Tx, number: nat, base: nat)
    requires Totalled(pr, base)
    ensures Totalled(GameStep(pr, tx, number), base)
  {
    var next := GameStep(pr, tx, number);
    if |next.receipts| > |pr.receipts| {
      var r := next.receipts[|pr.receipts|];
      NoteTotals(pr.receipts, tx, number, r.success, r.gasUsed, next.gas, base);
    }
  }

  lemma {:induction false} EvmTotals(o: Oracles, loaded: Accounts, pr: Progress, txs: seq<Tx>, number: nat, base: nat)
    requires Totalled(pr, base)
    ensures Totalled(EvmPhase(o, loaded, pr, txs, number), base)
    decreases |txs|
  {
    if txs != [] && !pr.failed {
      EvmStepTotals(o, loaded, pr, txs[0], number, base);
      EvmTotals(o, loaded, EvmStep(o, loaded, pr, txs[0], number), txs[1..], number, base);
    }
  }

  lemma {:induction false} GameTotals(pr: Progress, txs: seq<Tx>, number: nat, base: nat)
    requires Totalled(pr, base)
    ensures Totalled(GamePhase(pr, txs, number), base)
    decreases |txs|
  {
    if txs != [] && !pr.failed {
      GameStepTotals(pr, txs[0], number, base);
      GameTotals(GameStep(pr, txs[0], number), txs[1..], number, base);
    }
  }

  /** In any block, each receipt's total is the gas used so far plus the flat charge of all the game actions. */
  lemma {:induction false} ProcessedTotals(o: Oracles, m: Accounts, txs: seq<Tx>, actions: nat, number: nat)
    ensures Totalled(Processed(o, m, txs, actions, number), FlatGas(actions))
  {
    var start := Progress(m, [], FlatGas(actions), [], false);
    var evm := EvmPhase(o, m, start, EvmOf(txs), number);
    EvmTotals(o, m, start, EvmOf(txs), number, FlatGas(actions));
    if !evm.failed {
      GameTotals(Flushed(o, m, evm, EvmOf(txs)), txs, number, FlatGas(actions));
    }
  }

  /** No transaction of the block is a game action with a payload. */
  predicate NoPayload(txs: seq<Tx>) {
    forall j :: 0 <= j < |txs| ==> !(txs[j].isGame && txs[j].action.Some?)
  }

  lemma {:induction false} NoActionExactly(txs: seq<Tx>)
    requires ActionsOf(txs).Some?
    ensures ActionsOf(txs).value == [] <==> NoPayload(txs)
  {
    if txs != [] {
      NoActionExactly(txs[1..]);
      assert txs == [txs[0]] + txs[1..];
      assert NoPayload(txs) ==> NoPayload(txs[1..]);
    }
  }

  /**
   Cumulative gas counts the flat charge of every game action before the first receipt and then again
   with the action's own: a receipt's total is the running total exactly when the block has no game
   action with a payload.
   */
  lemma {:induction false} CumulativeExactly(o: Oracles, m: Accounts, txs: seq<Tx>, number: nat, i: nat)
    requires ActionsOf(txs).Some?
    requires i < |Processed(o, m, txs, |ActionsOf(txs).value|, number).receipts|
    ensures var rs := Processed(o, m, txs, |ActionsOf(txs).value|, number).receipts;
      && rs[i].cumulativeGas == FlatGas(|ActionsOf(txs).value|) + GasUsed(rs[..i + 1])
      && (rs[i].cumulativeGas == GasUsed(rs[..i + 1]) <==> NoPayload(txs))
  {
    var actions := |ActionsOf(txs).value|;
    ProcessedTotals(o, m, txs, actions, number);
    assert TotalAt(Processed(o, m, txs, actions, number).receipts, FlatGas(actions), i);
    NoActionExactly(txs);
    FlatGasZero(actions);
  }

  lemma FlatGasZero(n: nat)
    ensures FlatGas(n) == 0 <==> n == 0
  {}

  /** So it is in the stored receipts of every block that is applied. */
  lemma {:induction false} AppliedTotals(rules: Rules, o: Oracles, s: State, b: Block)
    requires Apply(rules, o, s, b).error.None?
    ensures ActionsOf(b.txs).Some?
    ensures var rs := Processed(o, s.accounts, b.txs, |ActionsOf(b.txs).value|, b.header.number).receipts;
      && Apply(rules, o, s, b).state.receipts == WithReceipts(s.receipts, Stamped(rs, HashOf(b.header)))
      && forall i :: 0 <= i < |rs| ==> (rs[i].cumulativeGas == GasUsed(rs[..i + 1]) <==> NoPayload(b.txs))
  {
    var rs := Processed(o, s.accounts, b.txs, |ActionsOf(b.txs).value|, b.header.number).receipts;
    forall i | 0 <= i < |rs|
      ensures rs[i].cumulativeGas == GasUsed(rs[..i + 1]) <==> NoPayload(b.txs)
    {
      CumulativeExactly(o, s.accounts, b.txs, b.header.number, i);
    }
  }
}

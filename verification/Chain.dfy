/**
 Applying blocks. `Apply` says what one call does to everything the node keeps; `Chain` is the object
 that does it in place, over the shared database, account store and transaction pool.
 */
module Chain {
  import opened Wrappers
  import opened Primitives
  import opened Poa
  import opened Storage
  import opened WorldState
  import TxPool

  datatype NodeError = NotInitialized | Consensus(error: ConsensusError) | SenderRecovery | TickFailed | ForkAhead

  datatype Action = Action(player: Address, payload: nat)

  datatype Execution = Execution(gasUsed: nat, success: bool)

  datatype Rules = Rules(recover: Recover, validators: seq<Address>)

  /**
   What cannot be seen from here. `exec` is the virtual machine running the last of a list of
   transactions on accounts loaded beforehand; `flush` the accounts it writes back afterwards; `tick`
   says whether the game world takes the actions.
   */
  datatype Oracles = Oracles(exec: (Accounts, seq<Tx>) -> Option<Execution>,
                             flush: (Accounts, seq<Tx>, seq<Tx>) -> Accounts,
                             tick: seq<Action> -> bool)

  /** `accounts` is what the account store shows; `stored` what the database holds of it. */
  datatype State = State(tables: Tables, receipts: map<TxHash, Receipt>, accounts: Accounts, stored: Accounts,
                         pool: TxPool.Pool, head: Option<Header>)

  datatype Outcome = Outcome(state: State, error: Option<NodeError>)

  const ZERO: Hash := Digest(0)

  function Genesis(s: State, h: Header): State {
    s.(tables := WithBlock(s.tables, Block(h, [])).(latest := Some(0)), head := Some(h))
  }

  /** On startup the head is looked up again; it stays unset if the tables do not have it. */
  function Restored(s: State): State {
    if s.tables.latest.Some? && s.tables.latest.value in s.tables.byNumber
       && s.tables.byNumber[s.tables.latest.value] in s.tables.headers
    then s.(head := Some(s.tables.headers[s.tables.byNumber[s.tables.latest.value]]))
    else s
  }

  // ---------- The three loops over a block's transactions ----------

  function EvmOf(txs: seq<Tx>): seq<Tx> {
    if txs == [] then [] else if txs[0].isGame then EvmOf(txs[1..]) else [txs[0]] + EvmOf(txs[1..])
  }

  /** The game actions in order, unless one of them is signed by nobody. */
  function ActionsOf(txs: seq<Tx>): Option<seq<Action>> {
    if txs == [] then Some([])
    else if txs[0].isGame && txs[0].action.Some? then
      if txs[0].signer.None? then None
      else
        var rest := ActionsOf(txs[1..]);
        if rest.None? then None else Some([Action(txs[0].signer.value, txs[0].action.value)] + rest.value)
    else ActionsOf(txs[1..])
  }

  datatype Progress = Progress(accounts: Accounts, receipts: seq<Receipt>, gas: nat, executed: seq<Tx>, failed: bool)

  function Note(receipts: seq<Receipt>, tx: Tx, number: nat, success: bool, gasUsed: nat, gas: nat): seq<Receipt> {
    receipts + [Receipt(tx.hash, number, ZERO, |receipts|, success, gasUsed, gas)]
  }

  /** A charge that cannot be paid is dropped. */
  function Charged(m: Accounts, a: Address, amount: nat): Accounts {
    match Subtracted(m, a, amount) case Ok(n) => n case Err(_) => m
  }

  function GasCost(tx: Tx, gasUsed: nat): nat {
    gasUsed * if tx.gasPrice.Some? then tx.gasPrice.value else 1
  }

  function EvmStep(o: Oracles, loaded: Accounts, pr: Progress, tx: Tx, number: nat): Progress {
    if tx.signer.None? then pr.(failed := true)
    else
      var a := tx.signer.value;
      if tx.nonce != GetOrCreate(pr.accounts, a).nonce then
        pr.(receipts := Note(pr.receipts, tx, number, false, 0, pr.gas))
      else
        var executed := pr.executed + [tx];
        match o.exec(loaded, executed)
        case Some(out) =>
          Progress(Bumped(Charged(pr.accounts, a, GasCost(tx, out.gasUsed)), a),
                   Note(pr.receipts, tx, number, out.success, out.gasUsed, pr.gas + out.gasUsed),
                   pr.gas + out.gasUsed, executed, false)
        case None =>
          Progress(Bumped(pr.accounts, a), Note(pr.receipts, tx, number, false, 0, pr.gas), pr.gas, executed, false)
  }

  function EvmPhase(o: Oracles, loaded: Accounts, pr: Progress, txs: seq<Tx>, number: nat): Progress
    decreases |txs|
  {
    if txs == [] || pr.failed then pr
    else EvmPhase(o, loaded, EvmStep(o, loaded, pr, txs[0], number), txs[1..], number)
  }

  function Flushed(o: Oracles, loaded: Accounts, pr: Progress, txs: seq<Tx>): Progress {
    if txs == [] then pr else pr.(accounts := pr.accounts + o.flush(loaded, txs, pr.executed))
  }

  function GameStep(pr: Progress, tx: Tx, number: nat): Progress {
    if !tx.isGame then pr
    else if tx.signer.None? then pr.(failed := true)
    else
      var a := tx.signer.value;
      var ok := tx.nonce == GetOrCreate(pr.accounts, a).nonce;
      pr.(accounts := if ok then Charged(Bumped(pr.accounts, a), a, GAME_GAS) else pr.accounts,
          receipts := Note(pr.receipts, tx, number, ok, GAME_GAS, pr.gas + GAME_GAS),
          gas := pr.gas + GAME_GAS)
  }

  function GamePhase(pr: Progress, txs: seq<Tx>, number: nat): Progress
    decreases |txs|
  {
    if txs == [] || pr.failed then pr else GamePhase(GameStep(pr, txs[0], number), txs[1..], number)
  }

  function FlatGas(n: nat): nat { n * GAME_GAS }

  /** Everything a block does to the accounts, with its receipts; `failed` if a sender cannot be recovered. */
  function Processed(o: Oracles, accounts: Accounts, txs: seq<Tx>, actions: nat, number: nat): Progress {
    var evm := EvmPhase(o, accounts, Progress(accounts, [], FlatGas(actions), [], false), EvmOf(txs), number);
    if evm.failed then evm else GamePhase(Flushed(o, accounts, evm, EvmOf(txs)), txs, number)
  }

  function Stamped(rs: seq<Receipt>, hash: Hash): (r: seq<Receipt>)
    ensures |r| == |rs| && forall i :: 0 <= i < |rs| ==> r[i] == rs[i].(blockHash := hash)
  {
    seq(|rs|, i requires 0 <= i < |rs| => rs[i].(blockHash := hash))
  }

  function HashesOf(txs: seq<Tx>): (r: seq<TxHash>)
    ensures |r| == |txs| && forall i :: 0 <= i < |txs| ==> r[i] == txs[i].hash
  {
    seq(|txs|, i requires 0 <= i < |txs| => txs[i].hash)
  }

  function Stored(s: State, b: Block, pr: Progress): State {
    State(WithBlock(s.tables, b).(latest := Some(b.header.number)),
          WithReceipts(s.receipts, Stamped(pr.receipts, HashOf(b.header))),
          pr.accounts, pr.accounts, TxPool.RemoveAll(s.pool, HashesOf(b.txs)), Some(b.header))
  }

  /** A failure after the account store was touched leaves the uncommitted changes in it. */
  function Apply(rules: Rules, o: Oracles, s: State, b: Block): Outcome {
    if s.head.None? then Outcome(s, Some(NotInitialized))
    else
      var error := VerifyBlock(rules.recover, rules.validators, b, s.head.value);
      if error.Some? then Outcome(s, Some(Consensus(error.value)))
      else
        var actions := ActionsOf(b.txs);
        if actions.None? then Outcome(s, Some(SenderRecovery))
        else
          var pr := Processed(o, s.accounts, b.txs, |actions.value|, b.header.number);
          if pr.failed then Outcome(s.(accounts := pr.accounts), Some(SenderRecovery))
          else if !o.tick(actions.value) then Outcome(s.(accounts := pr.accounts), Some(TickFailed))
          else Outcome(Stored(s, b, pr), None)
  }

  // ---------- The chain ----------

  class Chain {
    const db: Database
    const state: WorldState
    const pool: TxPool.TransactionPool
    const rules: Rules
    var head: Option<Header>

    ghost predicate Valid()
      reads this, db, state
    {
      state.db == db && state.Valid()
    }

    ghost function View(): State
      reads this, db, state, pool
      requires Valid()
    {
      State(db.View(), db.receipts, state.Accounts(), db.accounts, pool.View(), head)
    }

    constructor (d: Database, w: WorldState, p: TxPool.TransactionPool, r: Rules)
      requires w.Valid() && w.db == d
      ensures Valid() && db == d && state == w && pool == p && rules == r
      ensures View() == State(d.View(), d.receipts, w.Accounts(), d.accounts, p.View(), None)
    {
      db, state, pool, rules, head := d, w, p, r, None;
    }

    method InitGenesis(h: Header)
      requires Valid()
      modifies this, db`headers, db`byNumber, db`bodies, db`txIndex, db`latest
      ensures Valid() && View() == Genesis(old(View()), h)
    {
      db.PutBlock(Block(h, []));
      db.PutLatest(0);
      head := Some(h);
    }

    method RestoreHead()
      requires Valid()
      modifies this
      ensures Valid() && View() == Restored(old(View()))
    {
      if db.latest.Some? {
        var number := db.latest.value;
        if number in db.byNumber {
          var hash := db.byNumber[number];
          if hash in db.headers {
            head := Some(db.headers[hash]);
          }
        }
      }
    }

    method SetHead(h: Header)
      requires Valid()
      modifies this, db`latest
      ensures Valid() && View() == old(View()).(tables := old(db.View()).(latest := Some(h.number)), head := Some(h))
    {
      db.PutLatest(h.number);
      head := Some(h);
    }

    /** The current block number, 0 before genesis. */
    function BlockNumber(): (n: nat)
      reads this
      ensures head.Some? ==> n == head.value.number
    {
      if head.Some? then head.value.number else 0
    }

    method ExecuteEvm(o: Oracles, txs: seq<Tx>, number: nat, startGas: nat)
      returns (receipts: seq<Receipt>, gas: nat, failed: bool)
      requires Valid()
      modifies state
      ensures Valid()
      ensures var loaded := old(state.Accounts());
        var pr := EvmPhase(o, loaded, Progress(loaded, [], startGas, [], false), txs, number);
        && receipts == pr.receipts && gas == pr.gas && failed == pr.failed
        && state.Accounts() == if failed then pr.accounts else Flushed(o, loaded, pr, txs).accounts
    {
      ghost var loaded := state.Accounts();
      receipts, gas, failed := [], startGas, false;
      var executed: seq<Tx> := [];
      var snapshot := Snapshot();
      var i := 0;
      assert txs[0..] == txs;
      while i < |txs|
        modifies state
        invariant 0 <= i <= |txs| && Valid() && !failed && snapshot == loaded
        invariant EvmPhase(o, loaded, Progress(state.Accounts(), receipts, gas, executed, false), txs[i..], number)
               == EvmPhase(o, loaded, Progress(loaded, [], startGas, [], false), txs, number)
      {
        var tx := txs[i];
        assert txs[i..][0] == tx && txs[i..][1..] == txs[i + 1..];
        ghost var before := Progress(state.Accounts(), receipts, gas, executed, false);
        if tx.signer.None? {
          failed := true;
          return;
        }
        receipts, gas, executed := ExecuteOne(o, snapshot, tx, number, receipts, gas, executed);
        assert Progress(state.Accounts(), receipts, gas, executed, false) == EvmStep(o, loaded, before, tx, number);
        i := i + 1;
      }
      if txs != [] {
        Overwrite(o.flush(snapshot, txs, executed));
      }
    }

    method ExecuteOne(o: Oracles, loaded: Accounts, tx: Tx, number: nat, rs: seq<Receipt>, g: nat, ex: seq<Tx>)
      returns (receipts: seq<Receipt>, gas: nat, executed: seq<Tx>)
      requires Valid() && tx.signer.Some?
      modifies state
      ensures Valid()
      ensures Progress(state.Accounts(), receipts, gas, executed, false)
           == EvmStep(o, loaded, Progress(old(state.Accounts()), rs, g, ex, false), tx, number)
    {
      receipts, gas, executed := rs, g, ex;
      var sender := tx.signer.value;
      var expected := state.GetNonce(sender);
      if tx.nonce != expected {
        receipts := Note(receipts, tx, number, false, 0, gas);
        return;
      }
      executed := executed + [tx];
      var out := o.exec(loaded, executed);
      if out.Some? {
        gas := gas + out.value.gasUsed;
        var unpaid := state.SubBalance(sender, GasCost(tx, out.value.gasUsed));
        state.IncrementNonce(sender);
        receipts := Note(receipts, tx, number, out.value.success, out.value.gasUsed, gas);
      } else {
        state.IncrementNonce(sender);
        receipts := Note(receipts, tx, number, false, 0, gas);
      }
    }

    /** The accounts the virtual machine is loaded with. */
    method Snapshot() returns (m: Accounts)
      requires Valid()
      ensures m == state.Accounts()
    {
      m := db.accounts + state.dirty + state.cache;
    }

    /** Write accounts back into the account store. */
    method Overwrite(m: Accounts)
      requires Valid()
      modifies state
      ensures Valid() && state.Accounts() == old(state.Accounts()) + m
    {
      var todo := m.Keys;
      assert Written(m, m.Keys) == map[];
      while todo != {}
        modifies state
        invariant Valid() && todo <= m.Keys
        invariant state.Accounts() == old(state.Accounts()) + Written(m, todo)
        decreases todo
      {
        var a :| a in todo;
        WriteOne(old(state.Accounts()), m, todo, a);
        state.PutAccount(a, m[a]);
        todo := todo - {a};
      }
      assert Written(m, {}) == m;
    }

    method ProcessGame(txs: seq<Tx>, number: nat, before: seq<Receipt>, startGas: nat, ghost executed: seq<Tx>)
      returns (receipts: seq<Receipt>, failed: bool)
      requires Valid()
      modifies state
      ensures Valid()
      ensures var pr := GamePhase(Progress(old(state.Accounts()), before, startGas, executed, false), txs, number);
        receipts == pr.receipts && failed == pr.failed && state.Accounts() == pr.accounts
    {
      ghost var start := Progress(state.Accounts(), before, startGas, executed, false);
      receipts, failed := before, false;
      var gas: nat := startGas;
      var i := 0;
      assert txs[0..] == txs;
      while i < |txs|
        modifies state
        invariant 0 <= i <= |txs| && Valid() && !failed
        invariant GamePhase(Progress(state.Accounts(), receipts, gas, executed, false), txs[i..], number)
               == GamePhase(start, txs, number)
      {
        var tx := txs[i];
        assert txs[i..][0] == tx && txs[i..][1..] == txs[i + 1..];
        ghost var was := Progress(state.Accounts(), receipts, gas, executed, false);
        if tx.isGame {
          if tx.signer.None? {
            failed := true;
            return;
          }
          var sender := tx.signer.value;
          var expected := state.GetNonce(sender);
          var ok := tx.nonce == expected;
          if ok {
            state.IncrementNonce(sender);
            var unpaid := state.SubBalance(sender, GAME_GAS);
          }
          gas := gas + GAME_GAS;
          receipts := Note(receipts, tx, number, ok, GAME_GAS, gas);
        }
        assert Progress(state.Accounts(), receipts, gas, executed, false) == GameStep(was, tx, number);
        i := i + 1;
      }
    }

    method ApplyBlock(o: Oracles, b: Block) returns (error: Option<NodeError>)
      requires Valid()
      modifies this, db, state, pool
      ensures Valid()
      ensures View() == Apply(rules, o, old(View()), b).state
      ensures error == Apply(rules, o, old(View()), b).error
    {
      if head.None? {
        return Some(NotInitialized);
      }
      var invalid := VerifyBlock(rules.recover, rules.validators, b, head.value);
      if invalid.Some? {
        return Some(Consensus(invalid.value));
      }
      var evmTxs, actions, unsigned := Split(b.txs);
      if unsigned {
        return Some(SenderRecovery);
      }
      var number := b.header.number;
      ghost var loaded := state.Accounts();
      ghost var evm := EvmPhase(o, loaded, Progress(loaded, [], FlatGas(|actions|), [], false), evmTxs, number);
      var receipts, gas, failed := ExecuteEvm(o, evmTxs, number, FlatGas(|actions|));
      if failed {
        return Some(SenderRecovery);
      }
      receipts, failed := ProcessGame(b.txs, number, receipts, gas, evm.executed);
      ghost var pr := Processed(o, loaded, b.txs, |actions|, number);
      assert receipts == pr.receipts && failed == pr.failed && state.Accounts() == pr.accounts;
      if failed {
        return Some(SenderRecovery);
      }
      if !o.tick(actions) {
        return Some(TickFailed);
      }
      Store(b, receipts, pr);
      error := None;
    }

    /** Commit the accounts, store block and receipts, clear the pool of what is included, move the head. */
    method Store(b: Block, receipts: seq<Receipt>, ghost pr: Progress)
      requires Valid() && receipts == pr.receipts && state.Accounts() == pr.accounts
      modifies this, db, state, pool
      ensures Valid() && View() == Stored(old(View()), b, pr)
    {
      state.Commit();
      StoreTables(b, receipts);
      pool.RemoveIncluded(HashesOf(b.txs));
      head := Some(b.header);
    }

    method StoreTables(b: Block, receipts: seq<Receipt>)
      modifies db`headers, db`byNumber, db`bodies, db`txIndex, db`latest, db`receipts
      ensures db.View() == WithBlock(old(db.View()), b).(latest := Some(b.header.number))
      ensures db.receipts == WithReceipts(old(db.receipts), Stamped(receipts, HashOf(b.header)))
    {
      db.PutBlock(b);
      db.PutLatest(b.header.number);
      db.PutReceipts(Stamped(receipts, HashOf(b.header)));
    }
  }

  /** The accounts of `m` that are not in `todo`. */
  ghost function Written(m: Accounts, todo: set<Address>): Accounts {
    map a | a in m && a !in todo :: m[a]
  }

  lemma WriteOne(start: Accounts, m: Accounts, todo: set<Address>, a: Address)
    requires a in m && a in todo
    ensures (start + Written(m, todo))[a := m[a]] == start + Written(m, todo - {a})
  {}

  /** The first loop of `apply_block`. */
  method Split(txs: seq<Tx>) returns (evm: seq<Tx>, actions: seq<Action>, unsigned: bool)
    ensures unsigned == ActionsOf(txs).None?
    ensures !unsigned ==> evm == EvmOf(txs) && actions == ActionsOf(txs).value
  {
    evm, actions, unsigned := [], [], false;
    var i := 0;
    assert txs[0..] == txs;
    while i < |txs|
      invariant 0 <= i <= |txs| && !unsigned
      invariant EvmOf(txs) == evm + EvmOf(txs[i..])
      invariant ActionsOf(txs).None? == ActionsOf(txs[i..]).None?
      invariant ActionsOf(txs).Some? ==> ActionsOf(txs).value == actions + ActionsOf(txs[i..]).value
    {
      var tx := txs[i];
      assert txs[i..][0] == tx && txs[i..][1..] == txs[i + 1..];
      if tx.isGame {
        if tx.action.Some? {
          if tx.signer.None? {
            unsigned := true;
            return;
          }
          actions := actions + [Action(tx.signer.value, tx.action.value)];
        }
      } else {
        evm := evm + [tx];
      }
      i := i + 1;
    }
  }
}

/** The key-value tables of the node. Serialisation round-trips, so tables hold values. */
module Storage {
  import opened Wrappers
  import opened Primitives

  datatype Account = Account(nonce: nat, balance: nat)

  type Accounts = map<Address, Account>

  datatype TxLocation = TxLocation(block: Hash, index: nat)

  datatype Receipt = Receipt(txHash: TxHash, blockNumber: nat, blockHash: Hash, index: nat, success: bool,
                             gasUsed: nat, cumulativeGas: nat)

  /** The block tables: by hash, by number, the latest number. */
  datatype Tables = Tables(headers: map<Hash, Header>, byNumber: map<nat, Hash>, bodies: map<Hash, seq<Tx>>,
                           txIndex: map<TxHash, TxLocation>, latest: Option<nat>)

  const EMPTY: Tables := Tables(map[], map[], map[], map[], None)

  /** Storing a header, under whatever hash it is given, also points its number at that hash. */
  function WithHeader(t: Tables, hash: Hash, h: Header): Tables {
    t.(headers := t.headers[hash := h], byNumber := t.byNumber[h.number := hash])
  }

  /** Index the transactions from position `i` on. */
  function IndexTxs(index: map<TxHash, TxLocation>, hash: Hash, txs: seq<Tx>, i: nat): map<TxHash, TxLocation>
    requires i <= |txs|
    decreases |txs| - i
  {
    if i == |txs| then index else IndexTxs(index[txs[i].hash := TxLocation(hash, i)], hash, txs, i + 1)
  }

  /** A transaction of the block is located at its last position in it; every other location stays. */
  lemma {:induction false} LocatedExactly(index: map<TxHash, TxLocation>, hash: Hash, txs: seq<Tx>, i: nat, h: TxHash)
    requires i <= |txs|
    ensures (exists j :: i <= j < |txs| && txs[j].hash == h) ==>
      h in IndexTxs(index, hash, txs, i) && IsLast(txs, IndexTxs(index, hash, txs, i)[h].index, h)
      && IndexTxs(index, hash, txs, i)[h].block == hash
    ensures !(exists j :: i <= j < |txs| && txs[j].hash == h) ==>
      (h in IndexTxs(index, hash, txs, i) <==> h in index)
          && (h in index ==> IndexTxs(index, hash, txs, i)[h] == index[h])
    decreases |txs| - i
  {
    if i < |txs| {
      LocatedExactly(index[txs[i].hash := TxLocation(hash, i)], hash, txs, i + 1, h);
    }
  }

  ghost predicate IsLast(txs: seq<Tx>, j: nat, h: TxHash) {
    j < |txs| && txs[j].hash == h && forall k :: j < k < |txs| ==> txs[k].hash != h
  }

  function WithBlock(t: Tables, b: Block): Tables {
    var hash := HashOf(b.header);
    var u := WithHeader(t, hash, b.header);
    u.(bodies := u.bodies[hash := b.txs], txIndex := IndexTxs(u.txIndex, hash, b.txs, 0))
  }

  function BlockByHash(t: Tables, hash: Hash): Option<Block> {
    if hash in t.headers && hash in t.bodies then Some(Block(t.headers[hash], t.bodies[hash])) else None
  }

  function BlockByNumber(t: Tables, n: nat): Option<Block> {
    if n in t.byNumber then BlockByHash(t, t.byNumber[n]) else None
  }

  /** A stored block is found by hash and by number; blocks under other hashes are found as before. */
  lemma StoredFound(t: Tables, b: Block, hash: Hash)
    ensures var u := WithBlock(t, b);
      && BlockByHash(u, OfHeader(b.header)) == Some(b) && BlockByNumber(u, b.header.number) == Some(b)
      && (hash != OfHeader(b.header) ==> BlockByHash(u, hash) == BlockByHash(t, hash))
      && (forall n :: n != b.header.number ==> (n in u.byNumber <==> n in t.byNumber)
                                               && (n in t.byNumber ==> u.byNumber[n] == t.byNumber[n]))
      && u.latest == t.latest
  {}

  function WithReceipts(m: map<TxHash, Receipt>, rs: seq<Receipt>): map<TxHash, Receipt>
    decreases |rs|
  {
    if rs == [] then m else WithReceipts(m[rs[0].txHash := rs[0]], rs[1..])
  }

  class Database {
    var headers: map<Hash, Header>
    var byNumber: map<nat, Hash>
    var bodies: map<Hash, seq<Tx>>
    var txIndex: map<TxHash, TxLocation>
    var latest: Option<nat>
    var receipts: map<TxHash, Receipt>
    var accounts: Accounts

    function View(): Tables
      reads this
    {
      Tables(headers, byNumber, bodies, txIndex, latest)
    }

    constructor ()
      ensures View() == EMPTY && receipts == map[] && accounts == map[]
    {
      headers, byNumber, bodies, txIndex, latest := map[], map[], map[], map[], None;
      receipts, accounts := map[], map[];
    }

    method PutHeader(hash: Hash, h: Header)
      modifies this`headers, this`byNumber
      ensures View() == WithHeader(old(View()), hash, h)
    {
      headers := headers[hash := h];
      byNumber := byNumber[h.number := hash];
    }

    method PutBlock(b: Block)
      modifies this`headers, this`byNumber, this`bodies, this`txIndex
      ensures View() == WithBlock(old(View()), b)
    {
      var hash := HashOf(b.header);
      PutHeader(hash, b.header);
      bodies := bodies[hash := b.txs];
      var i := 0;
      while i < |b.txs|
        modifies this`txIndex
        invariant 0 <= i <= |b.txs|
        invariant IndexTxs(txIndex, hash, b.txs, i) == IndexTxs(old(txIndex), hash, b.txs, 0)
      {
        txIndex := txIndex[b.txs[i].hash := TxLocation(hash, i)];
        i := i + 1;
      }
    }

    method PutLatest(n: nat)
      modifies this`latest
      ensures View() == old(View()).(latest := Some(n))
    {
      latest := Some(n);
    }

    method PutReceipts(rs: seq<Receipt>)
      modifies this`receipts
      ensures receipts == WithReceipts(old(receipts), rs)
    {
      var i := 0;
      assert rs[0..] == rs;
      while i < |rs|
        invariant 0 <= i <= |rs|
        invariant WithReceipts(receipts, rs[i..]) == WithReceipts(old(receipts), rs)
      {
        receipts := receipts[rs[i].txHash := rs[i]];
        assert rs[i..][1..] == rs[i + 1..];
        i := i + 1;
      }
    }

    method PutAccount(a: Address, account: Account)
      modifies this`accounts
      ensures accounts == old(accounts)[a := account]
    {
      accounts := accounts[a := account];
    }
  }
}

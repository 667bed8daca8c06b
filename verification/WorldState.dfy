/**
 The account store: a read cache and a set of uncommitted changes over the database. It behaves like
 one plain map of accounts, `Accounts()`, which every operation below is specified by.
 */
module WorldState {
  import opened Wrappers
  import opened Primitives
  import opened Storage

  /** Balances are 256-bit. */
  const MAX_BALANCE: nat := 0x1_0000_0000_0000_0000_0000_0000_0000_0000_0000_0000_0000_0000_0000_0000_0000_0000

  datatype StateError = InsufficientBalance | BalanceOverflow

  function Get(m: Accounts, a: Address): Option<Account> {
    if a in m then Some(m[a]) else None
  }

  function GetOrCreate(m: Accounts, a: Address): Account {
    if a in m then m[a] else Account(0, 0)
  }

  function Bumped(m: Accounts, a: Address): Accounts {
    m[a := GetOrCreate(m, a).(nonce := GetOrCreate(m, a).nonce + 1)]
  }

  function Added(m: Accounts, a: Address, amount: nat): Result<Accounts, StateError> {
    var account := GetOrCreate(m, a);
    if account.balance + amount >= MAX_BALANCE then Err(BalanceOverflow)
    else Ok(m[a := account.(balance := account.balance + amount)])
  }

  function Subtracted(m: Accounts, a: Address, amount: nat): Result<Accounts, StateError> {
    var account := GetOrCreate(m, a);
    if account.balance < amount then Err(InsufficientBalance)
    else Ok(m[a := account.(balance := account.balance - amount)])
  }

  class WorldState {
    const db: Database
    var cache: Accounts
    var dirty: Accounts

    /** A changed account is cached as changed; any other cached account is the stored one. */
    ghost predicate Valid()
      reads this, db
    {
      && (forall a :: a in dirty ==> a in cache && cache[a] == dirty[a])
      && (forall a :: a in cache && a !in dirty ==> a in db.accounts && db.accounts[a] == cache[a])
    }

    /** The accounts a caller sees. */
    ghost function Accounts(): Accounts
      reads this, db
    {
      db.accounts + dirty + cache
    }

    constructor (database: Database)
      ensures Valid() && db == database && Accounts() == database.accounts
      ensures cache == map[] && dirty == map[]
    {
      db := database;
      cache, dirty := map[], map[];
    }

    method GetAccount(a: Address) returns (r: Option<Account>)
      requires Valid()
      modifies this`cache
      ensures Valid() && Accounts() == old(Accounts())
      ensures r == Get(Accounts(), a)
    {
      if a in cache {
        return Some(cache[a]);
      }
      if a in dirty {
        assert false;  // a changed account is always cached, so the second lookup never hits
      }
      if a in db.accounts {
        cache := cache[a := db.accounts[a]];
        return Some(db.accounts[a]);
      }
      r := None;
    }

    method GetOrCreateAccount(a: Address) returns (account: Account)
      requires Valid()
      modifies this`cache
      ensures Valid() && Accounts() == old(Accounts())
      ensures account == GetOrCreate(Accounts(), a)
    {
      var found := GetAccount(a);
      account := if found.Some? then found.value else Account(0, 0);
    }

    method PutAccount(a: Address, account: Account)
      requires Valid()
      modifies this
      ensures Valid() && Accounts() == old(Accounts())[a := account]
    {
      dirty := dirty[a := account];
      cache := cache[a := account];
    }

    method GetNonce(a: Address) returns (nonce: nat)
      requires Valid()
      modifies this`cache
      ensures Valid() && Accounts() == old(Accounts())
      ensures nonce == GetOrCreate(Accounts(), a).nonce
    {
      var found := GetAccount(a);
      nonce := if found.Some? then found.value.nonce else 0;
    }

    method IncrementNonce(a: Address)
      requires Valid()
      modifies this
      ensures Valid() && Accounts() == Bumped(old(Accounts()), a)
    {
      var account := GetOrCreateAccount(a);
      PutAccount(a, account.(nonce := account.nonce + 1));
    }

    method AddBalance(a: Address, amount: nat) returns (error: Option<StateError>)
      requires Valid()
      modifies this
      ensures Valid()
      ensures match Added(old(Accounts()), a, amount)
              case Ok(m) => error == None && Accounts() == m
              case Err(e) => error == Some(e) && Accounts() == old(Accounts())
    {
      var account := GetOrCreateAccount(a);
      if account.balance + amount >= MAX_BALANCE {
        return Some(BalanceOverflow);
      }
      PutAccount(a, account.(balance := account.balance + amount));
      error := None;
    }

    method SubBalance(a: Address, amount: nat) returns (error: Option<StateError>)
      requires Valid()
      modifies this
      ensures Valid()
      ensures match Subtracted(old(Accounts()), a, amount)
              case Ok(m) => error == None && Accounts() == m
              case Err(e) => error == Some(e) && Accounts() == old(Accounts())
    {
      var account := GetOrCreateAccount(a);
      if account.balance < amount {
        return Some(InsufficientBalance);
      }
      PutAccount(a, account.(balance := account.balance - amount));
      error := None;
    }

    /** Committing drains the changes into the database, which then holds exactly what callers see. */
    method Commit()
      requires Valid()
      modifies this`dirty, db`accounts
      ensures Valid() && dirty == map[]
      ensures Accounts() == old(Accounts()) && db.accounts == old(Accounts())
    {
      var drained := dirty;
      dirty := map[];
      var todo := drained.Keys;
      while todo != {}
        modifies db`accounts
        invariant todo <= drained.Keys
        invariant forall a :: a in db.accounts <==> a in old(db.accounts) || (a in drained && a !in todo)
        invariant forall a :: a in db.accounts ==>
          db.accounts[a] == if a in drained && a !in todo then drained[a] else old(db.accounts)[a]
        decreases todo
      {
        var a :| a in todo;
        db.PutAccount(a, drained[a]);
        todo := todo - {a};
      }
      assert db.accounts == old(db.accounts) + drained;
      assert old(Accounts()) == old(db.accounts) + drained;
    }

    /** Clearing the caches goes back to the last committed accounts. */
    method ClearCache()
      modifies this
      ensures Valid() && Accounts() == db.accounts
    {
      cache, dirty := map[], map[];
    }
  }

  // ---------- Conservation ----------

  ghost function Total(m: Accounts): nat
    decreases |m|
  {
    if m == map[] then 0 else
      var a :| a in m;
      SmallerWithout(m, a);
      m[a].balance + Total(m - {a})
  }

  lemma SmallerWithout(m: Accounts, a: Address)
    requires a in m
    ensures |m - {a}| == |m| - 1
  {
    assert (m - {a}).Keys == m.Keys - {a};
  }

  /** The total does not depend on the order in which accounts are summed. */
  lemma {:induction false} TotalWithout(m: Accounts, a: Address)
    requires a in m
    ensures Total(m) == m[a].balance + Total(m - {a})
    decreases |m|
  {
    var b :| b in m && Total(m) == m[b].balance + Total(m - {b});
    if b != a {
      SmallerWithout(m, a);
      SmallerWithout(m, b);
      TotalWithout(m - {b}, a);
      TotalWithout(m - {a}, b);
      assert m - {a} - {b} == m - {b} - {a};
    }
  }

  lemma TotalPut(m: Accounts, a: Address, account: Account)
    ensures Total(m[a := account]) == Total(m) - GetOrCreate(m, a).balance + account.balance
  {
    var n := m[a := account];
    TotalWithout(n, a);
    if a in m {
      TotalWithout(m, a);
      assert n - {a} == m - {a};
    } else {
      assert n - {a} == m;
    }
  }

  /** Taking an amount from one account and giving it to another, or the same, keeps the total. */
  lemma {:induction false} TransferConserves(m: Accounts, payer: Address, payee: Address, amount: nat)
    requires Subtracted(m, payer, amount).Ok?
    requires Added(Subtracted(m, payer, amount).value, payee, amount).Ok?
    ensures Total(Added(Subtracted(m, payer, amount).value, payee, amount).value) == Total(m)
  {
    var paid := Subtracted(m, payer, amount).value;
    TotalPut(m, payer, paid[payer]);
    TotalPut(paid, payee, Added(paid, payee, amount).value[payee]);
  }

  /** Anyone else's account is as it was, and nonces never change by paying. */
  ghost predicate OnlyBalance(m: Accounts, n: Accounts, a: Address) {
    GetOrCreate(n, a).nonce == GetOrCreate(m, a).nonce && forall b :: b != a ==> Get(n, b) == Get(m, b)
  }

  /** Crediting fails only if the balance would reach 2^256, and debiting only if it does not cover the amount. */
  lemma BalancesExactly(m: Accounts, a: Address, amount: nat)
    ensures Added(m, a, amount).Ok? <==> GetOrCreate(m, a).balance + amount < MAX_BALANCE
    ensures Added(m, a, amount).Ok? ==> var n := Added(m, a, amount).value;
      OnlyBalance(m, n, a) && a in n && n[a].balance == GetOrCreate(m, a).balance + amount
    ensures Subtracted(m, a, amount).Ok? <==> GetOrCreate(m, a).balance >= amount
    ensures Subtracted(m, a, amount).Ok? ==> var n := Subtracted(m, a, amount).value;
      OnlyBalance(m, n, a) && a in n && n[a].balance == GetOrCreate(m, a).balance - amount
  {}
}

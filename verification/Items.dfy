/** Rolling a drop table: a weighted choice with a chance of nothing. */
module Items {
  import opened Wrappers

  datatype Entry = Entry(item: nat, weight: nat, minQuantity: nat, maxQuantity: nat)

  datatype Table = Table(entries: seq<Entry>, nothing: nat)

  datatype Drop = Drop(item: nat, quantity: nat)

  const U32: nat := 0x1_0000_0000

  function Weights(entries: seq<Entry>): nat {
    if entries == [] then 0 else entries[0].weight + Weights(entries[1..])
  }

  function Total(t: Table): nat { t.nothing + Weights(t.entries) }

  /** The range size is a 32-bit number and wraps around to 0 for the widest range. */
  function RangeSize(e: Entry): nat {
    ((if e.maxQuantity > e.minQuantity then e.maxQuantity - e.minQuantity else 0) + 1) % U32
  }

  function QuantityOf(e: Entry, random: nat): nat {
    if RangeSize(e) <= 1 then e.minQuantity else e.minQuantity + random % RangeSize(e)
  }

  /** The position chosen by a roll, among entries that start when `cumulative` weight has gone by. */
  function Pick(entries: seq<Entry>, cumulative: nat, roll: nat): (r: Option<nat>)
    ensures r.Some? ==> r.value < |entries|
  {
    if entries == [] then None
    else if roll < cumulative + entries[0].weight then Some(0)
    else
      var rest := Pick(entries[1..], cumulative + entries[0].weight, roll);
      if rest.Some? then Some(rest.value + 1) else None
  }

  function Chosen(t: Table, roll: nat): (r: Option<nat>)
    ensures r.Some? ==> r.value < |t.entries|
  {
    if roll < t.nothing then None else Pick(t.entries, t.nothing, roll)
  }

  /** A roll from two random numbers, both drawn from the seed. */
  method Roll(t: Table, first: nat, second: nat) returns (drop: Option<Drop>)
    ensures drop.None? <==> Total(t) == 0 || Chosen(t, first % Total(t)).None?
    ensures drop.Some? ==>
      var e := t.entries[Chosen(t, first % Total(t)).value];
      drop.value == Drop(e.item, QuantityOf(e, second))
  {
    var total := Total(t);
    if total == 0 {
      return None;
    }
    var roll := first % total;
    var cumulative: nat := t.nothing;
    if roll < cumulative {
      return None;
    }
    assert t.entries[0..] == t.entries;
    for i := 0 to |t.entries|
      invariant roll >= cumulative
      invariant var rest := Pick(t.entries[i..], cumulative, roll);
        Pick(t.entries, t.nothing, roll) == if rest.Some? then Some(rest.value + i) else None
    {
      var e := t.entries[i];
      assert t.entries[i..][0] == e && t.entries[i..][1..] == t.entries[i + 1..];
      cumulative := cumulative + e.weight;
      if roll < cumulative {
        return Some(Drop(e.item, QuantityOf(e, second)));
      }
    }
    drop := None;
  }

  // ---------- How often ----------

  /** A position is chosen exactly by the rolls between the weight before it and the weight up to it. */
  lemma {:induction false} PickExactly(entries: seq<Entry>, cumulative: nat, roll: nat, k: nat)
    requires cumulative <= roll && k < |entries|
    ensures Pick(entries, cumulative, roll) == Some(k) <==>
      cumulative + Weights(entries[..k]) <= roll < cumulative + Weights(entries[..k]) + entries[k].weight
  {
    var rest := Pick(entries[1..], cumulative + entries[0].weight, roll);
    if k == 0 {
      assert entries[..0] == [];
    } else {
      assert entries[..k][0] == entries[0] && entries[..k][1..] == entries[1..][..k - 1];
      if roll >= cumulative + entries[0].weight {
        PickExactly(entries[1..], cumulative + entries[0].weight, roll, k - 1);
      }
    }
  }

  lemma {:induction false} PickSome(entries: seq<Entry>, cumulative: nat, roll: nat)
    ensures Pick(entries, cumulative, roll).Some? <==> entries != [] && roll < cumulative + Weights(entries)
  {
    if entries != [] { PickSome(entries[1..], cumulative + entries[0].weight, roll); }
  }

  lemma {:induction false} WeightsUpTo(entries: seq<Entry>, k: nat)
    requires k < |entries|
    ensures Weights(entries[..k]) + entries[k].weight <= Weights(entries)
  {
    if k > 0 {
      assert entries[..k][0] == entries[0] && entries[..k][1..] == entries[1..][..k - 1];
      WeightsUpTo(entries[1..], k - 1);
    }
  }

  function Below(n: nat): (r: set<nat>)
    ensures forall x: nat :: x in r <==> x < n
  {
    if n == 0 then {} else Below(n - 1) + {n - 1}
  }

  /** The residues in `[0, Total)` that choose this. */
  function Choosing(t: Table, choice: Option<nat>): set<nat> {
    set r | r in Below(Total(t)) && Chosen(t, r) == choice
  }

  lemma {:induction false} BelowSize(n: nat)
    ensures |Below(n)| == n
  {
    if n > 0 {
      BelowSize(n - 1);
      assert n - 1 !in Below(n - 1);
    }
  }

  lemma {:induction false} BetweenSize(lo: nat, hi: nat)
    requires lo <= hi
    ensures |Below(hi) - Below(lo)| == hi - lo
  {
    BelowSize(lo);
    BelowSize(hi);
    assert Below(hi) == Below(lo) + (Below(hi) - Below(lo));
  }

  /** Nothing is chosen by exactly as many residues as the weight of nothing, whatever the entries. */
  lemma {:induction false} NothingShare(t: Table)
    ensures |Choosing(t, None)| == t.nothing
  {
    forall r: nat
      ensures r in Choosing(t, None) <==> r in Below(t.nothing)
    {
      if r >= t.nothing {
        PickSome(t.entries, t.nothing, r);
      }
    }
    assert Choosing(t, None) == Below(t.nothing);
    BelowSize(t.nothing);
  }

  /** Each entry is chosen by exactly as many residues as its weight. */
  lemma {:induction false} ExactShares(t: Table, k: nat)
    requires k < |t.entries|
    ensures |Choosing(t, Some(k))| == t.entries[k].weight
  {
    var lo := t.nothing + Weights(t.entries[..k]);
    var hi := lo + t.entries[k].weight;
    WeightsUpTo(t.entries, k);
    forall r: nat
      ensures r in Choosing(t, Some(k)) <==> r in Below(hi) - Below(lo)
    {
      if r >= t.nothing {
        PickExactly(t.entries, t.nothing, r, k);
      }
    }
    assert Choosing(t, Some(k)) == Below(hi) - Below(lo);
    BetweenSize(lo, hi);
  }

  /** Once a roll is past the weight of nothing, the loop always finds an entry. */
  lemma {:induction false} TrailingNoneUnreachable(t: Table, roll: nat)
    requires roll < Total(t)
    ensures Chosen(t, roll).None? <==> roll < t.nothing
  {
    PickSome(t.entries, t.nothing, roll);
  }

  /** Quantities lie between the bounds, unless the minimum is above the maximum; then it is the minimum. */
  lemma {:induction false} QuantityInRange(e: Entry, random: nat)
    requires e.minQuantity < U32 && e.maxQuantity < U32
    ensures e.minQuantity <= e.maxQuantity ==> e.minQuantity <= QuantityOf(e, random) <= e.maxQuantity
    ensures e.minQuantity > e.maxQuantity ==> QuantityOf(e, random) == e.minQuantity
  {}

  ghost predicate CanComeUp(e: Entry, quantity: nat) {
    exists random: nat {:trigger QuantityOf(e, random)} :: QuantityOf(e, random) == quantity
  }

  lemma {:induction false} QuantityHit(e: Entry, offset: nat)
    requires e.minQuantity <= e.maxQuantity && offset <= e.maxQuantity - e.minQuantity < U32 - 1
    ensures QuantityOf(e, offset) == e.minQuantity + offset
  {
    SmallModulus(e.maxQuantity - e.minQuantity + 1, U32);
    SmallModulus(offset, e.maxQuantity - e.minQuantity + 1);
  }

  lemma {:induction false} SmallModulus(x: nat, n: nat)
    requires x < n
    ensures x % n == x
  {}

  /** Every quantity in the range can come up exactly when the range size fits in 32 bits. */
  lemma {:induction false} EveryQuantityExactly(e: Entry)
    requires e.minQuantity <= e.maxQuantity < U32
    ensures (forall q: nat :: e.minQuantity <= q <= e.maxQuantity ==> CanComeUp(e, q)) <==>
      e.maxQuantity - e.minQuantity + 1 < U32
  {
    var size := e.maxQuantity - e.minQuantity + 1;
    if size < U32 {
      forall q: nat | e.minQuantity <= q <= e.maxQuantity
        ensures CanComeUp(e, q)
      {
        QuantityHit(e, q - e.minQuantity);
      }
    } else {
      assert RangeSize(e) == 0;
      assert !CanComeUp(e, e.maxQuantity);
    }
  }
}

/**
 Reassembly of blocks that arrive out of order: a buffer of early blocks, the set of numbers already
 asked for, and the drain loop that applies buffered blocks when the gap before them closes.
 */
module Reassembly {
  import opened OrderedKeys
  import opened Primitives

  const LIMIT: nat := 1000

  /** The chain's verdict on a block, given the blocks applied so far. */
  type Accepts = (seq<Block>, Block) -> bool

  /** `applied` are the blocks applied since block `base`, `sent` the block requests made to peers. */
  datatype State = State(base: nat, applied: seq<Block>, buffer: map<nat, Block>, requested: set<nat>, sent: seq<nat>) {
    function Head(): nat { base + |applied| }
  }

  function Init(base: nat): State { State(base, [], map[], {}, []) }

  /** Apply the block that follows the head. */
  function Applied(s: State, b: Block): State {
    s.(applied := s.applied + [b], requested := s.requested - {s.Head() + 1})
  }

  /** Apply buffered blocks while the next one is there; a block that is refused is dropped. */
  function Drain(accepts: Accepts, s: State): State
    decreases s.buffer.Keys
  {
    var next := s.Head() + 1;
    if next !in s.buffer then
      s
    else
      var b := s.buffer[next];
      var rest := s.(buffer := s.buffer - {next});
      if accepts(s.applied, b) then Drain(accepts, Applied(rest, b)) else rest
  }

  /** Evict the lowest numbers until the buffer fits. */
  function Trim(buffer: map<nat, Block>): (r: map<nat, Block>)
    ensures |r| <= LIMIT
    ensures |buffer| <= LIMIT ==> r == buffer
    decreases |buffer|
  {
    if |buffer| <= LIMIT then buffer else
      var least := Least(buffer.Keys);
      assert (buffer - {least}).Keys == buffer.Keys - {least};
      Trim(buffer - {least})
  }

  datatype Asked = Asked(requested: set<nat>, sent: seq<nat>)

  /** Ask for each number from `lo` up to but excluding `hi` that is neither asked for nor buffered. */
  function AskMissing(buffer: map<nat, Block>, a: Asked, lo: nat, hi: nat): Asked
    decreases hi - lo
  {
    if lo >= hi then a
    else if lo in a.requested || lo in buffer then AskMissing(buffer, a, lo + 1, hi)
    else AskMissing(buffer, Asked(a.requested + {lo}, a.sent + [lo]), lo + 1, hi)
  }

  function OnEarly(s: State, b: Block): State
    requires s.Head() + 1 < b.header.number
  {
    var buffer := s.buffer[b.header.number := b];
    var asked := AskMissing(buffer, Asked(s.requested, s.sent), s.Head() + 1, b.header.number);
    s.(buffer := buffer, requested := asked.requested, sent := asked.sent)
  }

  function Fit(s: State): State {
    s.(buffer := Trim(s.buffer))
  }

  function OnBlock(accepts: Accepts, s: State, b: Block): State {
    var expected := s.Head() + 1;
    if b.header.number < expected then
      s
    else if b.header.number > expected then
      Fit(OnEarly(s, b))
    else if accepts(s.applied, b) then
      Fit(Drain(accepts, Applied(s, b)))
    else
      Fit(s)
  }

  function OnBlocks(accepts: Accepts, s: State, bs: seq<Block>): State
    decreases |bs|
  {
    if bs == [] then s else OnBlocks(accepts, OnBlock(accepts, s, bs[0]), bs[1..])
  }

  // ---------- The event loop ----------

  class Intake {
    const accepts: Accepts
    const base: nat
    var applied: seq<Block>
    var buffer: map<nat, Block>
    var requested: set<nat>
    var sent: seq<nat>

    function View(): State
      reads this
    {
      State(base, applied, buffer, requested, sent)
    }

    constructor (start: nat, verdict: Accepts)
      ensures View() == Init(start) && accepts == verdict
    {
      base, accepts := start, verdict;
      applied, buffer, requested, sent := [], map[], {}, [];
    }

    method BlockReceived(b: Block)
      modifies this
      ensures View() == OnBlock(accepts, old(View()), b)
    {
      var expected := base + |applied| + 1;
      if b.header.number < expected {
        return;
      }
      if b.header.number == expected {
        if accepts(applied, b) {
          applied := applied + [b];
          requested := requested - {expected};
          DrainBuffer();
        }
      } else {
        buffer := buffer[b.header.number := b];
        requested, sent := CollectMissing(buffer, requested, sent, expected, b.header.number);
      }
      EvictExcess();
    }

    method DrainBuffer()
      modifies this`applied, this`buffer, this`requested
      ensures View() == Drain(accepts, old(View()))
    {
      while true
        invariant Drain(accepts, View()) == Drain(accepts, old(View()))
        invariant sent == old(sent)
        decreases buffer.Keys
      {
        var next := base + |applied| + 1;
        if next !in buffer {
          break;
        }
        var buffered := buffer[next];
        buffer := buffer - {next};
        if !accepts(applied, buffered) {
          break;
        }
        applied := applied + [buffered];
        requested := requested - {next};
      }
    }

    method EvictExcess()
      modifies this`buffer
      ensures View() == Fit(old(View()))
    {
      while |buffer| > LIMIT
        invariant Trim(buffer) == Trim(old(buffer))
        decreases |buffer|
      {
        var first := Least(buffer.Keys);
        assert (buffer - {first}).Keys == buffer.Keys - {first};
        buffer := buffer - {first};
      }
    }
  }

  /** The loop over the missing numbers, on the values it updates. */
  method CollectMissing(buffer: map<nat, Block>, requested0: set<nat>, sent0: seq<nat>, lo: nat, hi: nat)
    returns (requested: set<nat>, sent: seq<nat>)
    requires lo <= hi
    ensures Asked(requested, sent) == AskMissing(buffer, Asked(requested0, sent0), lo, hi)
  {
    requested, sent := requested0, sent0;
    var missing := lo;
    while missing < hi
      invariant lo <= missing <= hi
      invariant AskMissing(buffer, Asked(requested, sent), missing, hi) ==
                AskMissing(buffer, Asked(requested0, sent0), lo, hi)
    {
      if missing !in requested && missing !in buffer {
        sent := sent + [missing];
        requested := requested + {missing};
      }
      missing := missing + 1;
    }
  }

  // ---------- No number is requested twice ----------

  /** Every request is still open or already satisfied, and none was made twice. */
  ghost predicate AskedOnce(s: State) {
    && Distinct(s.sent)
    && forall n :: n in s.sent ==> n in s.requested || n <= s.Head()
  }

  lemma {:induction false} AsksEachGapOnce(buffer: map<nat, Block>, a: Asked, lo: nat, hi: nat)
    requires Distinct(a.sent) && forall n :: n in a.sent ==> n in a.requested || n < lo
    ensures var r := AskMissing(buffer, a, lo, hi);
            && Distinct(r.sent)
            && (forall n :: n in r.sent ==> n in r.requested || n < lo)
            && (forall n :: n in r.requested <==> n in a.requested || (lo <= n < hi && n !in buffer))
            && (forall n :: n in r.sent <==> n in a.sent || (lo <= n < hi && n !in buffer && n !in a.requested))
    decreases hi - lo
  {
    if lo < hi {
      if lo in a.requested || lo in buffer {
        AsksEachGapOnce(buffer, a, lo + 1, hi);
      } else {
        AsksEachGapOnce(buffer, Asked(a.requested + {lo}, a.sent + [lo]), lo + 1, hi);
      }
    }
  }

  lemma {:induction false} DrainKeepsAsked(accepts: Accepts, s: State)
    requires AskedOnce(s)
    ensures AskedOnce(Drain(accepts, s))
    decreases s.buffer.Keys
  {
    var next := s.Head() + 1;
    if next in s.buffer && accepts(s.applied, s.buffer[next]) {
      DrainKeepsAsked(accepts, Applied(s.(buffer := s.buffer - {next}), s.buffer[next]));
    }
  }

  lemma BlockKeepsAsked(accepts: Accepts, s: State, b: Block)
    requires AskedOnce(s)
    ensures AskedOnce(OnBlock(accepts, s, b))
  {
    var expected := s.Head() + 1;
    if b.header.number == expected && accepts(s.applied, b) {
      DrainKeepsAsked(accepts, Applied(s, b));
    } else if b.header.number > expected {
      AsksEachGapOnce(s.buffer[b.header.number := b], Asked(s.requested, s.sent), expected, b.header.number);
    }
  }

  /** Over any run, whatever blocks arrive and whether or not the chain takes them, no request is repeated. */
  lemma {:induction false} NeverRequestedTwice(accepts: Accepts, s: State, bs: seq<Block>)
    requires AskedOnce(s)
    ensures AskedOnce(OnBlocks(accepts, s, bs))
    decreases |bs|
  {
    if bs != [] {
      BlockKeepsAsked(accepts, s, bs[0]);
      NeverRequestedTwice(accepts, OnBlock(accepts, s, bs[0]), bs[1..]);
    }
  }

  // ---------- One valid chain, delivered in any order ----------

  /** The block of each number, in a chain that is accepted block by block from `base` on. */
  type Chain = nat -> Block

  function Prefix(chain: Chain, base: nat, n: nat): (r: seq<Block>)
    ensures |r| == n
    ensures forall i :: 0 <= i < n ==> r[i] == chain(base + 1 + i)
  {
    seq(n, i requires i >= 0 => chain(base + 1 + i))
  }

  ghost predicate Valid(accepts: Accepts, chain: Chain, base: nat) {
    && (forall n :: chain(n).header.number == n)
    && (forall n: nat :: accepts(Prefix(chain, base, n), chain(base + 1 + n)))
  }

  /** `h` is the last number up to which everything above `base` was delivered. */
  ghost predicate LastContiguous(delivered: set<nat>, base: nat, h: nat) {
    base <= h && h + 1 !in delivered && forall n :: base < n <= h ==> n in delivered
  }

  /** The delivered numbers that cannot be applied yet. */
  function Early(delivered: set<nat>, h: nat): set<nat> {
    set n | n in delivered && n > h
  }

  /** The state is a function of the delivered set alone: head, applied blocks and buffer. */
  ghost predicate Canonical(s: State, chain: Chain, base: nat, delivered: set<nat>) {
    && s.base == base
    && LastContiguous(delivered, base, s.Head())
    && s.applied == Prefix(chain, base, |s.applied|)
    && s.buffer.Keys == Early(delivered, s.Head())
    && forall n :: n in s.buffer ==> s.buffer[n] == chain(n)
  }

  /** Before draining: as `Canonical`, but the next number may be in the buffer. */
  ghost predicate Draining(s: State, chain: Chain, base: nat, delivered: set<nat>) {
    && s.base == base
    && (forall n :: base < n <= s.Head() ==> n in delivered)
    && s.applied == Prefix(chain, base, |s.applied|)
    && s.buffer.Keys == Early(delivered, s.Head())
    && forall n :: n in s.buffer ==> s.buffer[n] == chain(n)
  }

  lemma AppliedNext(s: State, chain: Chain, base: nat, delivered: set<nat>)
    requires s.base == base && s.applied == Prefix(chain, base, |s.applied|)
    ensures s.applied + [chain(s.Head() + 1)] == Prefix(chain, base, |s.applied| + 1)
  {
  }

  lemma {:induction false} DrainsToGap(accepts: Accepts, s: State, chain: Chain, base: nat, delivered: set<nat>)
    requires Valid(accepts, chain, base) && Draining(s, chain, base, delivered)
    ensures Canonical(Drain(accepts, s), chain, base, delivered)
    ensures |Drain(accepts, s).buffer| <= |s.buffer|
    decreases s.buffer.Keys
  {
    var next := s.Head() + 1;
    if next in s.buffer {
      var rest := s.(buffer := s.buffer - {next});
      assert rest.buffer.Keys == s.buffer.Keys - {next};
      assert s.applied == Prefix(chain, base, |s.applied|) && s.buffer[next] == chain(base + 1 + |s.applied|);
      assert accepts(s.applied, s.buffer[next]);
      AppliedNext(s, chain, base, delivered);
      DrainsToGap(accepts, Applied(rest, s.buffer[next]), chain, base, delivered);
    }
  }

  lemma SameHead(delivered: set<nat>, base: nat, a: nat, b: nat)
    requires LastContiguous(delivered, base, a) && LastContiguous(delivered, base, b)
    ensures a == b
  {
  }

  lemma NextDraining(s: State, chain: Chain, base: nat, delivered: set<nat>)
    requires Canonical(s, chain, base, delivered)
    ensures Draining(Applied(s, chain(s.Head() + 1)), chain, base, delivered + {s.Head() + 1})
  {
    var n := s.Head() + 1;
    AppliedNext(s, chain, base, delivered);
    assert Early(delivered + {n}, n) == s.buffer.Keys by {
      assert n !in delivered;
    }
  }

  lemma NextDelivered(accepts: Accepts, s: State, chain: Chain, base: nat, delivered: set<nat>)
    requires Valid(accepts, chain, base) && Canonical(s, chain, base, delivered)
    ensures var n := s.Head() + 1;
            var t := Drain(accepts, Applied(s, chain(n)));
            && accepts(s.applied, chain(n))
            && Canonical(t, chain, base, delivered + {n})
            && |t.buffer| <= |s.buffer|
  {
    assert accepts(Prefix(chain, base, |s.applied|), chain(base + 1 + |s.applied|));
    NextDraining(s, chain, base, delivered);
    DrainsToGap(accepts, Applied(s, chain(s.Head() + 1)), chain, base, delivered + {s.Head() + 1});
  }

  lemma EarlyDelivered(s: State, chain: Chain, base: nat, delivered: set<nat>, n: nat)
    requires Canonical(s, chain, base, delivered) && chain(n).header.number == n && n > s.Head() + 1
    ensures var t := Fit(OnEarly(s, chain(n)));
            && LastContiguous(delivered + {n}, base, s.Head())
            && (Canonical(t, chain, base, delivered + {n}) <==> |Early(delivered + {n}, s.Head())| <= LIMIT)
  {
    var buffer := s.buffer[n := chain(n)];
    assert buffer.Keys == Early(delivered + {n}, s.Head());
    assert |buffer| == |buffer.Keys|;
    assert Fit(OnEarly(s, chain(n))).buffer == Trim(buffer);
  }

  /**
   Delivering one more block of the chain: the state stays canonical exactly when the numbers that have
   to wait fit into the buffer. `h` is the head that the delivered set determines.
   */
  lemma DeliveryExactly(accepts: Accepts, s: State, chain: Chain, base: nat, delivered: set<nat>,
      n: nat) returns (h: nat)
    requires Valid(accepts, chain, base) && Canonical(s, chain, base, delivered) && |s.buffer| <= LIMIT
    ensures LastContiguous(delivered + {n}, base, h)
    ensures Canonical(OnBlock(accepts, s, chain(n)), chain, base, delivered + {n}) <==>
        |Early(delivered + {n}, h)| <= LIMIT
    ensures |OnBlock(accepts, s, chain(n)).buffer| <= LIMIT
  {
    assert chain(n).header.number == n;
    if n <= s.Head() {
      h := s.Head();
      assert Early(delivered + {n}, h) == s.buffer.Keys;
    } else if n == s.Head() + 1 {
      NextDelivered(accepts, s, chain, base, delivered);
      h := Drain(accepts, Applied(s, chain(n))).Head();
      assert |Early(delivered + {n}, h)| == |Drain(accepts, Applied(s, chain(n))).buffer|;
    } else {
      h := s.Head();
      EarlyDelivered(s, chain, base, delivered, n);
    }
  }

  function Deliver(accepts: Accepts, s: State, chain: Chain, ns: seq<nat>): State
    decreases |ns|
  {
    if ns == [] then s else Deliver(accepts, OnBlock(accepts, s, chain(ns[0])), chain, ns[1..])
  }

  /** After every delivery, the state is what the delivered set determines. */
  ghost predicate AlwaysCanonical(accepts: Accepts, s: State, chain: Chain, base: nat, delivered: set<nat>,
      ns: seq<nat>)
    decreases |ns|
  {
    ns == [] ||
    (Canonical(OnBlock(accepts, s, chain(ns[0])), chain, base, delivered + {ns[0]}) &&
     AlwaysCanonical(accepts, OnBlock(accepts, s, chain(ns[0])), chain, base, delivered + {ns[0]}, ns[1..]))
  }

  ghost predicate Fits(base: nat, delivered: set<nat>) {
    forall h :: LastContiguous(delivered, base, h) ==> |Early(delivered, h)| <= LIMIT
  }

  /** After every delivery, at most `LIMIT` delivered numbers wait above the head. */
  ghost predicate AlwaysFits(base: nat, delivered: set<nat>, ns: seq<nat>)
    decreases |ns|
  {
    ns == [] || (Fits(base, delivered + {ns[0]}) && AlwaysFits(base, delivered + {ns[0]}, ns[1..]))
  }

  lemma {:induction false} CanonicalExactly(accepts: Accepts, s: State, chain: Chain, base: nat, delivered: set<nat>,
      ns: seq<nat>)
    requires Valid(accepts, chain, base) && Canonical(s, chain, base, delivered) && |s.buffer| <= LIMIT
    ensures AlwaysCanonical(accepts, s, chain, base, delivered, ns) <==> AlwaysFits(base, delivered, ns)
    ensures AlwaysFits(base, delivered, ns) ==>
              Canonical(Deliver(accepts, s, chain, ns), chain, base, delivered + SetOf(ns))
    decreases |ns|
  {
    if ns == [] {
      assert delivered + SetOf(ns) == delivered;
    } else {
      var all := delivered + {ns[0]};
      var h := DeliveryExactly(accepts, s, chain, base, delivered, ns[0]);
      if Fits(base, all) {
        CanonicalExactly(accepts, OnBlock(accepts, s, chain(ns[0])), chain, base, all, ns[1..]);
        SetOfTail(ns);
        assert all + SetOf(ns[1..]) == delivered + SetOf(ns);
      } else {
        var k :| LastContiguous(all, base, k) && |Early(all, k)| > LIMIT;
        SameHead(all, base, h, k);
      }
    }
  }

  /** From a fresh node: canonical throughout exactly when the waiting blocks always fit the buffer. */
  lemma {:induction false} ReassemblyExactly(accepts: Accepts, chain: Chain, base: nat, ns: seq<nat>)
    requires Valid(accepts, chain, base)
    ensures AlwaysCanonical(accepts, Init(base), chain, base, {}, ns) <==> AlwaysFits(base, {}, ns)
  {
    CanonicalExactly(accepts, Init(base), chain, base, {}, ns);
  }

  /** Head, applied blocks and buffer after any delivery that always fits are those of the delivered set. */
  lemma {:induction false} DeliveredIsCanonical(accepts: Accepts, chain: Chain, base: nat, ns: seq<nat>)
    requires Valid(accepts, chain, base) && AlwaysFits(base, {}, ns)
    ensures Canonical(Deliver(accepts, Init(base), chain, ns), chain, base, SetOf(ns))
  {
    CanonicalExactly(accepts, Init(base), chain, base, {}, ns);
    assert {} + SetOf(ns) == SetOf(ns);
  }

  lemma CanonicalUnique(s: State, t: State, chain: Chain, base: nat, delivered: set<nat>)
    requires Canonical(s, chain, base, delivered) && Canonical(t, chain, base, delivered)
    ensures s.applied == t.applied && s.buffer == t.buffer
  {
    SameHead(delivered, base, s.Head(), t.Head());
    assert s.buffer.Keys == t.buffer.Keys;
  }

  /**
   Two deliveries of the same blocks, in any two orders and with any repetitions, lead to the same
   applied blocks and the same buffer, as long as the waiting blocks always fit.
   */
  lemma {:induction false} OrderDoesNotMatter(accepts: Accepts, chain: Chain, base: nat, ns: seq<nat>, ms: seq<nat>)
    requires Valid(accepts, chain, base) && (forall n :: n in ns <==> n in ms)
    requires AlwaysFits(base, {}, ns) && AlwaysFits(base, {}, ms)
    ensures var s := Deliver(accepts, Init(base), chain, ns);
            var t := Deliver(accepts, Init(base), chain, ms);
            s.applied == t.applied && s.buffer == t.buffer
  {
    DeliveredIsCanonical(accepts, chain, base, ns);
    DeliveredIsCanonical(accepts, chain, base, ms);
    assert SetOf(ns) == SetOf(ms);
    CanonicalUnique(Deliver(accepts, Init(base), chain, ns), Deliver(accepts, Init(base), chain, ms), chain, base,
        SetOf(ns));
  }
}

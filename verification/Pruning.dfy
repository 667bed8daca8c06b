/**
 Chain pruning: which block numbers are handed out for deletion. Numbers come from a queue of blocks
 with known hashes and, once it is empty, straight from the lowest stored number.
 */
module Pruning {
  import opened Wrappers
  import opened Arithmetic
  import opened Sequences

  datatype Mode = Archive | KeepRecent(keep: nat) | LightPrune(keep: nat)

  datatype Target = Target(number: nat, hash: nat, pruneHeader: bool)

  datatype Queued = Queued(number: nat, hash: nat)

  datatype Engine = Engine(mode: Mode, batch: nat, interval: nat, head: nat, lowest: nat, queue: seq<Queued>,
                           lastPrune: nat)

  /** The hash of a target that the queue did not name; the caller looks it up. */
  const NO_HASH: nat := 0

  function Fresh(mode: Mode, batch: nat, interval: nat, lowest: nat): Engine {
    Engine(mode, batch, interval, lowest, lowest, [], 0)
  }

  /** How far below the head pruning may go: everything under this number. */
  function Cutoff(e: Engine): nat {
    if e.mode.Archive? || e.head <= e.mode.keep then 0 else e.head - e.mode.keep
  }

  function Prunable(e: Engine): nat {
    if Cutoff(e) > e.lowest then Cutoff(e) - e.lowest else 0
  }

  function IsRetained(e: Engine, n: nat): bool {
    e.mode.Archive? || e.head < e.mode.keep || n >= e.head - e.mode.keep
  }

  datatype Pass = Pass(engine: Engine, targets: seq<Target>)

  datatype Taken = Taken(lowest: nat, queue: seq<Queued>, targets: seq<Target>)

  /** The loop of a pruning pass, with `left` targets still allowed. */
  function Taking(lowest: nat, queue: seq<Queued>, header: bool, cutoff: nat, left: nat): Taken
    decreases left
  {
    if lowest >= cutoff || left == 0 || (queue != [] && queue[0].number >= cutoff) then Taken(lowest, queue, [])
    else
      var first := First(lowest, queue, header);
      var rest := Taking(first.number + 1, Rest(queue), header, cutoff, left - 1);
      Taken(rest.lowest, rest.queue, [first] + rest.targets)
  }

  function First(lowest: nat, queue: seq<Queued>, header: bool): Target {
    if queue != [] then Target(queue[0].number, queue[0].hash, header) else Target(lowest, NO_HASH, header)
  }

  function Rest(queue: seq<Queued>): seq<Queued> {
    if queue != [] then queue[1..] else []
  }

  function Generated(e: Engine): Pass {
    if e.mode.Archive? || e.head <= e.mode.keep then Pass(e, [])
    else
      var t := Taking(e.lowest, e.queue, e.mode.KeepRecent?, Cutoff(e), e.batch);
      Pass(e.(lowest := t.lowest, queue := t.queue), t.targets)
  }

  /** The difference of two 64-bit numbers as the node computes it. */
  function Since(n: nat, last: nat): int {
    if n >= last then n - last else n - last + 0x1_0000_0000_0000_0000
  }

  function NewBlock(e: Engine, n: nat): Pass {
    var f := e.(head := n);
    if e.mode.Archive? || Since(n, e.lastPrune) < e.interval then Pass(f, [])
    else Generated(f.(lastPrune := n))
  }

  class PruningEngine {
    const mode: Mode
    const batch: nat
    const interval: nat
    var head: nat
    var lowest: nat
    var queue: seq<Queued>
    var lastPrune: nat

    function View(): Engine
      reads this
    {
      Engine(mode, batch, interval, head, lowest, queue, lastPrune)
    }

    constructor (m: Mode, batchSize: nat, intervalBlocks: nat, lowestBlock: nat)
      ensures View() == Fresh(m, batchSize, intervalBlocks, lowestBlock)
    {
      mode, batch, interval := m, batchSize, intervalBlocks;
      head, lowest, queue, lastPrune := lowestBlock, lowestBlock, [], 0;
    }

    method OnNewBlock(n: nat) returns (targets: seq<Target>)
      modifies this
      ensures NewBlock(old(View()), n) == Pass(View(), targets)
    {
      head := n;
      if mode.Archive? {
        return [];
      }
      if Since(n, lastPrune) < interval {
        return [];
      }
      lastPrune := n;
      targets := GenerateTargets();
    }

    method GenerateTargets() returns (targets: seq<Target>)
      modifies this`lowest, this`queue
      ensures Generated(old(View())) == Pass(View(), targets)
    {
      targets := [];
      if mode.Archive? {
        return;
      }
      var keep := mode.keep;
      if head <= keep {
        return;
      }
      lowest, queue, targets := TakeTargets(lowest, queue, mode.KeepRecent?, head - keep, batch);
    }

    method EnqueueBlock(n: nat, hash: nat)
      modifies this`queue
      ensures View() == old(View()).(queue := old(queue) + [Queued(n, hash)])
    {
      queue := queue + [Queued(n, hash)];
    }

    method PrunableCount() returns (n: nat)
      ensures n == Prunable(View())
    {
      if mode.Archive? {
        return 0;
      }
      if head <= mode.keep {
        return 0;
      }
      var cutoff := head - mode.keep;
      n := if cutoff > lowest then cutoff - lowest else 0;
    }
  }

  method TakeTargets(low: nat, pending: seq<Queued>, header: bool, cutoff: nat, batch: nat)
    returns (lowest: nat, queue: seq<Queued>, targets: seq<Target>)
    ensures Taking(low, pending, header, cutoff, batch) == Taken(lowest, queue, targets)
  {
    lowest, queue, targets := low, pending, [];
    var count: nat := 0;
    ghost var whole := Taking(low, pending, header, cutoff, batch);
    ghost var rest := whole;
    while lowest < cutoff && count < batch
      invariant count <= batch
      invariant rest == Taking(lowest, queue, header, cutoff, batch - count)
      invariant rest.lowest == whole.lowest && rest.queue == whole.queue && targets + rest.targets == whole.targets
      decreases batch - count
    {
      if queue != [] {
        var front := queue[0];
        queue := queue[1..];
        if front.number < cutoff {
          MoveFirst(targets, rest.targets);
          targets := targets + [Target(front.number, front.hash, header)];
          lowest := front.number + 1;
        } else {
          queue := [front] + queue;
          break;
        }
      } else {
        MoveFirst(targets, rest.targets);
        targets := targets + [Target(lowest, NO_HASH, header)];
        lowest := lowest + 1;
      }
      count := count + 1;
      rest := Taking(lowest, queue, header, cutoff, batch - count);
    }
  }

  // ---------- One pass ----------

  /** Consecutive numbers from `from` on. */
  ghost predicate Numbered(ts: seq<Target>, from: nat) {
    forall i :: 0 <= i < |ts| ==> ts[i].number == from + i
  }

  /** The first `count` entries of the queue, as far as it goes, are the numbers from `from` on. */
  ghost predicate QueueAgrees(queue: seq<Queued>, from: nat, count: nat) {
    forall i :: 0 <= i < |queue| && i < count ==> queue[i].number == from + i
  }

  /** The numbers below `cutoff` from `lowest` on, at most `left` of them. */
  function Due(lowest: nat, cutoff: nat, left: nat): nat {
    if cutoff > lowest then Min(left, cutoff - lowest) else 0
  }

  /**
   A pass hands out the lowest numbers in turn, as many as it may and no other, exactly when the part of
   the queue it consumes names those numbers.
   */
  lemma {:induction false} TakingExactly(lowest: nat, queue: seq<Queued>, header: bool, cutoff: nat, left: nat)
    ensures var k := Due(lowest, cutoff, left);
      var t := Taking(lowest, queue, header, cutoff, left).targets;
      |t| == k && Numbered(t, lowest) <==> QueueAgrees(queue, lowest, k)
    decreases left
  {
    var k := Due(lowest, cutoff, left);
    if k == 0 {
      NoneDue(lowest, queue, header, cutoff, left);
    } else if queue != [] && queue[0].number != lowest {
      WrongFirst(lowest, queue, header, cutoff, left);
    } else {
      var rest := Taking(lowest + 1, Rest(queue), header, cutoff, left - 1).targets;
      DueOne(lowest, cutoff, left);
      TakingOne(lowest, queue, header, cutoff, left);
      TakingExactly(lowest + 1, Rest(queue), header, cutoff, left - 1);
      Prepend(First(lowest, queue, header), rest, lowest);
      QueueTail(queue, lowest, k);
    }
  }

  /** With another block than the lowest at the front, a pass hands out nothing, or that block first. */
  lemma {:induction false} WrongFirst(lowest: nat, queue: seq<Queued>, header: bool, cutoff: nat, left: nat)
    requires Due(lowest, cutoff, left) > 0 && queue != [] && queue[0].number != lowest
    ensures var t := Taking(lowest, queue, header, cutoff, left).targets;
      (t == [] || !Numbered(t, lowest)) && !QueueAgrees(queue, lowest, Due(lowest, cutoff, left))
  {
    var t := Taking(lowest, queue, header, cutoff, left).targets;
    assert t != [] ==> t[0].number == queue[0].number;
  }

  /** One turn of the loop with the lowest block at the front of the queue, or with an empty queue. */
  lemma TakingOne(lowest: nat, queue: seq<Queued>, header: bool, cutoff: nat, left: nat)
    requires lowest < cutoff && left > 0 && (queue != [] ==> queue[0].number == lowest)
    ensures var t := Taking(lowest, queue, header, cutoff, left);
      var rest := Taking(lowest + 1, Rest(queue), header, cutoff, left - 1);
      t.lowest == rest.lowest && t.queue == rest.queue && t.targets == [First(lowest, queue, header)] + rest.targets
  {}

  lemma DueOne(lowest: nat, cutoff: nat, left: nat)
    requires Due(lowest, cutoff, left) > 0
    ensures lowest < cutoff && left > 0 && Due(lowest + 1, cutoff, left - 1) == Due(lowest, cutoff, left) - 1
  {}

  lemma {:induction false} NoneDue(lowest: nat, queue: seq<Queued>, header: bool, cutoff: nat, left: nat)
    requires Due(lowest, cutoff, left) == 0
    ensures Taking(lowest, queue, header, cutoff, left) == Taken(lowest, queue, [])
  {}

  /** And then it leaves the engine that many numbers further. */
  lemma {:induction false} TakingLeaves(lowest: nat, queue: seq<Queued>, header: bool, cutoff: nat, left: nat, k: nat)
    requires k == Due(lowest, cutoff, left) && QueueAgrees(queue, lowest, k)
    ensures Taking(lowest, queue, header, cutoff, left).lowest == lowest + k
    ensures Taking(lowest, queue, header, cutoff, left).queue == Dropped(queue, k)
    decreases k
  {
    if k == 0 {
      NoneDue(lowest, queue, header, cutoff, left);
      DroppedNone(queue);
    } else {
      DueOne(lowest, cutoff, left);
      FirstAgrees(queue, lowest, k);
      TakingOne(lowest, queue, header, cutoff, left);
      QueueTail(queue, lowest, k);
      TakingLeaves(lowest + 1, Rest(queue), header, cutoff, left - 1, k - 1);
      DroppedMore(queue, k);
    }
  }

  /** The queue without its first `k` entries. */
  function Dropped(queue: seq<Queued>, k: nat): seq<Queued> {
    if k <= |queue| then queue[k..] else []
  }

  lemma DroppedNone(queue: seq<Queued>)
    ensures Dropped(queue, 0) == queue
  {}

  lemma DroppedMore(queue: seq<Queued>, k: nat)
    requires k > 0
    ensures Dropped(Rest(queue), k - 1) == Dropped(queue, k)
  {}

  lemma FirstAgrees(queue: seq<Queued>, from: nat, k: nat)
    requires QueueAgrees(queue, from, k) && k > 0
    ensures queue != [] ==> queue[0].number == from
  {}

  lemma Prepend(t: Target, rest: seq<Target>, from: nat)
    requires t.number == from
    ensures Numbered([t] + rest, from) <==> Numbered(rest, from + 1)
  {
    var ts := [t] + rest;
    forall i | 0 <= i < |rest|
      ensures rest[i] == ts[i + 1]
    {}
    if Numbered(rest, from + 1) {
      forall i | 0 <= i < |ts|
        ensures ts[i].number == from + i
      {
        assert i > 0 ==> ts[i] == rest[i - 1];
      }
    }
  }

  lemma QueueTail(queue: seq<Queued>, from: nat, k: nat)
    requires k > 0 && (queue != [] ==> queue[0].number == from)
    ensures QueueAgrees(queue, from, k) <==> QueueAgrees(Rest(queue), from + 1, k - 1)
  {
    var rest := Rest(queue);
    forall i | 0 <= i < |rest|
      ensures rest[i] == queue[i + 1]
    {}
    if QueueAgrees(rest, from + 1, k - 1) {
      forall i | 0 <= i < |queue| && i < k
        ensures queue[i].number == from + i
      {
        assert i > 0 ==> queue[i] == rest[i - 1];
      }
    }
  }

  /** The numbers a pass of this engine has to hand out. */
  function DueAt(e: Engine): nat { Min(e.batch, Prunable(e)) }

  /** A pass whose queue agrees emits the smaller of its batch size and the prunable count, in turn, and no more. */
  lemma {:induction false} PassExactly(e: Engine)
    requires QueueAgrees(e.queue, e.lowest, DueAt(e))
    ensures var p := Generated(e); var k := DueAt(e);
      && |p.targets| == k && Numbered(p.targets, e.lowest)
      && p.engine == e.(lowest := e.lowest + k, queue := Dropped(e.queue, k))
  {
    TakingExactly(e.lowest, e.queue, e.mode.KeepRecent?, Cutoff(e), e.batch);
    TakingLeaves(e.lowest, e.queue, e.mode.KeepRecent?, Cutoff(e), e.batch, DueAt(e));
    DroppedNone(e.queue);
  }

  /** Whatever is queued, only numbers below the cutoff are handed out. */
  lemma {:induction false} TakingBelow(lowest: nat, queue: seq<Queued>, header: bool, cutoff: nat, left: nat, i: nat)
    requires i < |Taking(lowest, queue, header, cutoff, left).targets|
    ensures Taking(lowest, queue, header, cutoff, left).targets[i].number < cutoff
    decreases left
  {
    if i > 0 {
      var first := First(lowest, queue, header);
      TakingBelow(first.number + 1, Rest(queue), header, cutoff, left - 1, i - 1);
    }
  }

  /** So no pass hands out a block that is retained. */
  lemma {:induction false} PassSpares(e: Engine, i: nat)
    requires i < |Generated(e).targets|
    ensures !IsRetained(e, Generated(e).targets[i].number)
  {
    TakingBelow(e.lowest, e.queue, e.mode.KeepRecent?, Cutoff(e), e.batch, i);
  }

  /**
   A block queued only after its number was handed out is handed out again, with every number after it
   up to the batch size, and the lowest number goes back.
   */
  lemma {:induction false} LateEnqueueRepeats(e: Engine, n: nat, hash: nat)
    requires e.queue == [] && n < e.lowest && n < Cutoff(e) && e.batch > 0 && e.lowest < Cutoff(e)
    ensures var p := Generated(e.(queue := [Queued(n, hash)])); var k := Min(e.batch, Cutoff(e) - n);
      && |p.targets| == k && Numbered(p.targets, n) && p.targets[0] == Target(n, hash, e.mode.KeepRecent?)
      && p.engine.lowest == n + k
  {
    var header := e.mode.KeepRecent?;
    var rest := Taking(n + 1, [], header, Cutoff(e), e.batch - 1);
    assert Rest([Queued(n, hash)]) == [];
    TakingExactly(n + 1, [], header, Cutoff(e), e.batch - 1);
    TakingLeaves(n + 1, [], header, Cutoff(e), e.batch - 1, Due(n + 1, Cutoff(e), e.batch - 1));
    Prepend(Target(n, hash, header), rest.targets, n);
  }
}

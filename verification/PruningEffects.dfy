/**
 What a pruning pass hands out whatever is queued, and when passes happen: told without the loop, and for
 a chain that grows block by block.
 */
module PruningEffects {
  import opened Wrappers
  import opened Arithmetic
  import opened Pruning

  /** How many of the targets come from the queue: as many as it has. */
  function FromQueue(queue: seq<Queued>, targets: seq<Target>): nat { Min(|queue|, |targets|) }

  /**
   The targets are the front of the queue as it was enqueued, then the numbers that follow with no hash;
   all of them with or without their header.
   */
  ghost predicate TargetsAre(lowest: nat, queue: seq<Queued>, header: bool, targets: seq<Target>) {
    forall i :: 0 <= i < |targets| ==>
      targets[i] == if i < |queue| then Target(queue[i].number, queue[i].hash, header)
                    else Target(Following(lowest, targets, i), 0, header)
  }

  /** The number after the last one handed out before position `i`. */
  function Following(lowest: nat, targets: seq<Target>, i: nat): nat
    requires i <= |targets|
  {
    if i == 0 then lowest else targets[i - 1].number + 1
  }

  /** Why a pass goes no further: the batch is full, the next number is retained, or so is the queue's front. */
  ghost predicate Stops(queue: seq<Queued>, cutoff: nat, left: nat, lowest: nat, count: nat) {
    count == left || lowest >= cutoff || (count < |queue| && queue[count].number >= cutoff)
  }

  lemma FollowingFirst(first: Target, rest: seq<Target>, low: nat, i: nat)
    requires i <= |rest|
    ensures Following(low, [first] + rest, i + 1) == Following(first.number + 1, rest, i)
  {}

  lemma {:induction false} TargetsCons(lowest: nat, queue: seq<Queued>, header: bool, rest: seq<Target>)
    requires TargetsAre(First(lowest, queue, header).number + 1, Rest(queue), header, rest)
    ensures TargetsAre(lowest, queue, header, [First(lowest, queue, header)] + rest)
  {
    var first := First(lowest, queue, header);
    var all := [first] + rest;
    forall i | 0 <= i < |all|
      ensures all[i] == if i < |queue| then Target(queue[i].number, queue[i].hash, header)
                        else Target(Following(lowest, all, i), 0, header)
    {
      if i > 0 {
        FollowingFirst(first, rest, lowest, i - 1);
        assert all[i] == rest[i - 1];
        assert i < |queue| ==> queue[i] == Rest(queue)[i - 1];
      }
    }
  }

  /** What the loop of a pass comes to. */
  ghost predicate HandedOut(lowest: nat, queue: seq<Queued>, header: bool, cutoff: nat, left: nat, t: Taken) {
    && |t.targets| <= left
    && TargetsAre(lowest, queue, header, t.targets)
    && t.lowest == Following(lowest, t.targets, |t.targets|)
    && t.queue == queue[FromQueue(queue, t.targets)..]
    && Stops(queue, cutoff, left, t.lowest, |t.targets|)
  }

  lemma {:induction false} NothingHandedOut(lowest: nat, queue: seq<Queued>, header: bool, cutoff: nat, left: nat)
    requires lowest >= cutoff || left == 0 || (queue != [] && queue[0].number >= cutoff)
    ensures HandedOut(lowest, queue, header, cutoff, left, Taken(lowest, queue, []))
  {
    assert queue[0..] == queue;
  }

  lemma RestOfQueue(queue: seq<Queued>, k: nat)
    requires k <= |Rest(queue)|
    ensures queue != [] ==> Rest(queue)[k..] == queue[k + 1..]
    ensures queue == [] ==> Rest(queue)[k..] == queue
  {}

  lemma {:induction false} HandedOutFirst(lowest: nat, queue: seq<Queued>, header: bool, cutoff: nat, left: nat,
                                          rest: Taken)
    requires left > 0
    requires HandedOut(First(lowest, queue, header).number + 1, Rest(queue), header, cutoff, left - 1, rest)
    ensures HandedOut(lowest, queue, header, cutoff, left,
                      Taken(rest.lowest, rest.queue, [First(lowest, queue, header)] + rest.targets))
  {
    TargetsCons(lowest, queue, header, rest.targets);
    FollowingFirst(First(lowest, queue, header), rest.targets, lowest, |rest.targets|);
    RestOfQueue(queue, FromQueue(Rest(queue), rest.targets));
  }

  /** One turn of the loop. */
  lemma {:induction false} TakeTurn(lowest: nat, queue: seq<Queued>, header: bool, cutoff: nat, left: nat)
    returns (rest: Taken)
    requires lowest < cutoff && left > 0 && (queue != [] ==> queue[0].number < cutoff)
    ensures rest == Taking(First(lowest, queue, header).number + 1, Rest(queue), header, cutoff, left - 1)
    ensures Taking(lowest, queue, header, cutoff, left)
         == Taken(rest.lowest, rest.queue, [First(lowest, queue, header)] + rest.targets)
  {
    rest := Taking(First(lowest, queue, header).number + 1, Rest(queue), header, cutoff, left - 1);
  }

  lemma {:induction false} TakeNone(lowest: nat, queue: seq<Queued>, header: bool, cutoff: nat, left: nat)
    requires lowest >= cutoff || left == 0 || (queue != [] && queue[0].number >= cutoff)
    ensures Taking(lowest, queue, header, cutoff, left) == Taken(lowest, queue, [])
  {}

  lemma {:induction false} TakingHandsOut(lowest: nat, queue: seq<Queued>, header: bool, cutoff: nat, left: nat,
                                          t: Taken)
    requires t == Taking(lowest, queue, header, cutoff, left)
    ensures HandedOut(lowest, queue, header, cutoff, left, t)
    decreases left
  {
    if lowest >= cutoff || left == 0 || (queue != [] && queue[0].number >= cutoff) {
      TakeNone(lowest, queue, header, cutoff, left);
      NothingHandedOut(lowest, queue, header, cutoff, left);
    } else {
      var rest := TakeTurn(lowest, queue, header, cutoff, left);
      TakingHandsOut(First(lowest, queue, header).number + 1, Rest(queue), header, cutoff, left - 1, rest);
      HandedOutFirst(lowest, queue, header, cutoff, left, rest);
    }
  }

  /**
   Any pass at all: queued blocks go out as they were enqueued and in that order, then the numbers after
   them; what is handed out is gone from the queue, and the pass stops only for one of the three reasons.
   */
  lemma {:induction false} PassHandsOut(e: Engine)
    requires !e.mode.Archive? && e.head > e.mode.keep
    ensures var p := Generated(e); var cutoff := e.head - e.mode.keep;
      && |p.targets| <= e.batch
      && TargetsAre(e.lowest, e.queue, e.mode.KeepRecent?, p.targets)
      && p.engine == e.(lowest := Following(e.lowest, p.targets, |p.targets|),
                        queue := e.queue[FromQueue(e.queue, p.targets)..])
      && Stops(e.queue, cutoff, e.batch, p.engine.lowest, |p.targets|)
  {
    var t := Taking(e.lowest, e.queue, e.mode.KeepRecent?, e.head - e.mode.keep, e.batch);
    TakingHandsOut(e.lowest, e.queue, e.mode.KeepRecent?, e.head - e.mode.keep, e.batch, t);
  }

  // ---------- When passes happen ----------

  /** The distance of two block numbers as 64-bit arithmetic has it: a lower number counts as far ahead. */
  predicate Elapsed(e: Engine, n: nat) {
    if n >= e.lastPrune then n - e.lastPrune >= e.interval
    else n + 18446744073709551616 - e.lastPrune >= e.interval
  }

  /** A block makes a pass, with itself as the head, exactly when the interval has elapsed since the last one. */
  lemma PassesExactly(e: Engine, n: nat)
    ensures var p := NewBlock(e, n);
      && p.engine.head == n
      && (e.mode.Archive? || !Elapsed(e, n) ==> p == Pass(e.(head := n), []))
      && (!e.mode.Archive? && Elapsed(e, n) ==> p == Generated(e.(head := n, lastPrune := n)))
  {}

  /** The engine after the next `k` blocks, one after the other. */
  function Grown(e: Engine, k: nat): Engine
    decreases k
  {
    if k == 0 then e else Grown(NewBlock(e, e.head + 1).engine, k - 1)
  }

  lemma OneBlock(e: Engine)
    requires !e.mode.Archive? && e.lastPrune <= e.head < e.lastPrune + e.interval
    ensures var f := NewBlock(e, e.head + 1).engine;
      && f.mode == e.mode && f.interval == e.interval && f.head == e.head + 1
      && f.lastPrune == (if e.head + 1 - e.lastPrune < e.interval then e.lastPrune else e.head + 1)
  {}

  /** On a growing chain a pass happens at every `interval`-th block, counted from the last one. */
  lemma {:induction false} PassEveryInterval(e: Engine, k: nat)
    requires !e.mode.Archive? && e.lastPrune <= e.head < e.lastPrune + e.interval
    ensures Grown(e, k).head == e.head + k
    ensures Grown(e, k).lastPrune
         == e.lastPrune + Product(Intervals(e.head - e.lastPrune, k, e.interval), e.interval)
    decreases k
  {
    var age := e.head - e.lastPrune;
    IntervalsStep(age, if k > 0 then k else 1, e.interval);
    if k == 0 {
      assert 0 * e.interval == 0;
    } else {
      var f := NewBlock(e, e.head + 1).engine;
      OneBlock(e);
      PassEveryInterval(f, k - 1);
      OneMore(Intervals(0, k - 1, e.interval), e.interval);
    }
  }

  lemma OneMore(q: nat, n: nat)
    ensures Product(1 + q, n) == n + Product(q, n)
  {}
}

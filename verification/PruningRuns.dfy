/**
 Pruning over whole runs, with consecutive heads and any queued blocks: what is handed out does not
 depend on the queue exactly when each pass finds the queue in order.
 */
module PruningRuns {
  import opened Wrappers
  import opened Pruning

  datatype Event = Block | Enqueue(number: nat, hash: nat)

  /** The next block is one above the head; any number may be queued. */
  function Step(e: Engine, event: Event): Pass {
    match event
    case Block => NewBlock(e, e.head + 1)
    case Enqueue(n, hash) => Pass(e.(queue := e.queue + [Queued(n, hash)]), [])
  }

  function Run(e: Engine, es: seq<Event>): Pass
    decreases |es|
  {
    if es == [] then Pass(e, [])
    else
      var first := Step(e, es[0]);
      var rest := Run(first.engine, es[1..]);
      Pass(rest.engine, first.targets + rest.targets)
  }

  function Numbers(ts: seq<Target>): (r: seq<nat>)
    ensures |r| == |ts| && forall i :: 0 <= i < |r| ==> r[i] == ts[i].number
  {
    seq(|ts|, i requires 0 <= i < |ts| => ts[i].number)
  }

  function Bare(e: Engine): Engine { e.(queue := []) }

  /** The numbers handed out if nothing were ever queued. */
  function Undisturbed(e: Engine, es: seq<Event>): seq<nat>
    decreases |es|
  {
    if es == [] then []
    else if es[0].Enqueue? then Undisturbed(e, es[1..])
    else
      var first := Step(Bare(e), Block);
      Numbers(first.targets) + Undisturbed(first.engine, es[1..])
  }

  /** The next block starts a pass, and this is the engine it starts from. */
  predicate Prunes(e: Engine) {
    !e.mode.Archive? && Since(e.head + 1, e.lastPrune) >= e.interval
  }

  function AtPass(e: Engine): Engine { e.(head := e.head + 1, lastPrune := e.head + 1) }

  /** If this event starts a pass, the part of the queue it consumes names the lowest numbers in turn. */
  ghost predicate Agrees(e: Engine, event: Event) {
    event.Block? && Prunes(e) ==> QueueAgrees(e.queue, e.lowest, DueAt(AtPass(e)))
  }

  ghost predicate AllAgree(e: Engine, es: seq<Event>)
    decreases |es|
  {
    es == [] || (Agrees(e, es[0]) && AllAgree(Step(e, es[0]).engine, es[1..]))
  }

  // ---------- One event ----------

  lemma {:induction false} StepAgrees(e: Engine, event: Event)
    requires Agrees(e, event)
    ensures var p := Step(e, event); var k := if event.Block? && Prunes(e) then DueAt(AtPass(e)) else 0;
      && |p.targets| == k && Numbered(p.targets, e.lowest) && p.engine.lowest == e.lowest + k
      && p.engine.mode == e.mode && p.engine.batch == e.batch && p.engine.interval == e.interval
      && p.engine.head == (if event.Block? then e.head + 1 else e.head)
      && p.engine.lastPrune == (if event.Block? && Prunes(e) then e.head + 1 else e.lastPrune)
  {
    if event.Block? && Prunes(e) {
      PassExactly(AtPass(e));
    }
  }

  lemma {:induction false} SameNumbers(a: seq<Target>, b: seq<Target>, from: nat)
    requires |a| == |b| && Numbered(a, from) && Numbered(b, from)
    ensures Numbers(a) == Numbers(b)
  {
    assert forall i :: 0 <= i < |a| ==> Numbers(a)[i] == Numbers(b)[i];
  }

  /** An event that agrees does what it would do with nothing queued. */
  lemma {:induction false} AgreesUndisturbed(e: Engine, event: Event)
    requires Agrees(e, event) && event.Block?
    ensures var p := Step(e, event); var q := Step(Bare(e), event);
      Numbers(p.targets) == Numbers(q.targets) && Bare(p.engine) == Bare(q.engine)
  {
    StepAgrees(e, event);
    StepAgrees(Bare(e), event);
    SameNumbers(Step(e, event).targets, Step(Bare(e), event).targets, e.lowest);
  }

  lemma {:induction false} UndisturbedBare(e: Engine, f: Engine, es: seq<Event>)
    requires Bare(e) == Bare(f)
    ensures Undisturbed(e, es) == Undisturbed(f, es)
    decreases |es|
  {
    if es != [] && es[0].Enqueue? {
      UndisturbedBare(e, f, es[1..]);
    }
  }

  /** Undisturbed, the numbers are consecutive from the lowest on. */
  lemma {:induction false} UndisturbedInTurn(e: Engine, es: seq<Event>, i: nat)
    requires i < |Undisturbed(e, es)|
    ensures Undisturbed(e, es)[i] == e.lowest + i
    decreases |es|
  {
    if es[0].Enqueue? {
      UndisturbedInTurn(e, es[1..], i);
    } else {
      var first := Step(Bare(e), Block);
      StepAgrees(Bare(e), Block);
      if i >= |first.targets| {
        UndisturbedInTurn(first.engine, es[1..], i - |first.targets|);
      }
    }
  }

  // ---------- A queue out of order shows ----------

  /** The next queued block is not the lowest one. */
  predicate Stuck(lowest: nat, queue: seq<Queued>) {
    queue != [] && queue[0].number != lowest
  }

  /** A pass that hands out too few numbers, though in turn, stops before a block that is not the lowest. */
  lemma {:induction false} TooFewIsStuck(lowest: nat, queue: seq<Queued>, header: bool, cutoff: nat, left: nat)
    requires var t := Taking(lowest, queue, header, cutoff, left).targets;
      Numbered(t, lowest) && |t| != Due(lowest, cutoff, left)
    ensures var t := Taking(lowest, queue, header, cutoff, left);
      && |t.targets| < Due(lowest, cutoff, left)
      && t.lowest == lowest + |t.targets| && Stuck(t.lowest, t.queue)
    decreases left
  {
    var t := Taking(lowest, queue, header, cutoff, left);
    if t.targets != [] {
      var first := First(lowest, queue, header);
      var rest := Taking(first.number + 1, Rest(queue), header, cutoff, left - 1);
      assert t.targets == [first] + rest.targets;
      assert t.targets[0] == first;
      Prepend(first, rest.targets, lowest);
      TooFewIsStuck(lowest + 1, Rest(queue), header, cutoff, left - 1);
    }
  }

  /** Once stuck, the next number handed out, if any, is not the lowest. */
  lemma {:induction false} StuckRun(e: Engine, es: seq<Event>)
    requires Stuck(e.lowest, e.queue)
    ensures var ts := Run(e, es).targets; ts == [] || ts[0].number != e.lowest
    decreases |es|
  {
    if es != [] {
      var first := Step(e, es[0]);
      StuckStep(e, es[0]);
      if first.targets == [] {
        StuckRun(first.engine, es[1..]);
      }
    }
  }

  lemma {:induction false} StuckStep(e: Engine, event: Event)
    requires Stuck(e.lowest, e.queue)
    ensures var p := Step(e, event);
      if p.targets == [] then p.engine.lowest == e.lowest && Stuck(p.engine.lowest, p.engine.queue)
      else p.targets[0].number != e.lowest
  {}

  lemma {:induction false} DisagreeingStep(e: Engine, event: Event)
    requires !Agrees(e, event)
    ensures var p := Step(e, event); var q := Step(Bare(e), event);
      && Prunes(e) && |q.targets| == DueAt(AtPass(e))
      && (Numbered(p.targets, e.lowest) ==>
            |p.targets| < |q.targets| && p.engine.lowest == e.lowest + |p.targets|
                && Stuck(p.engine.lowest, p.engine.queue))
  {
    var f := AtPass(e);
    StepAgrees(Bare(e), event);
    TakingExactly(f.lowest, f.queue, f.mode.KeepRecent?, Cutoff(f), f.batch);
    if Numbered(Step(e, event).targets, e.lowest) {
      TooFewIsStuck(f.lowest, f.queue, f.mode.KeepRecent?, Cutoff(f), f.batch);
    }
  }

  /** From a pass that disagrees on, the run is not the undisturbed one, whatever comes later. */
  lemma {:induction false} DisagreementShows(e: Engine, es: seq<Event>)
    requires es != [] && !Agrees(e, es[0])
    ensures Numbers(Run(e, es).targets) != Undisturbed(e, es)
  {
    var p := Step(e, es[0]);
    var rest := Run(p.engine, es[1..]);
    var ts := Run(e, es).targets;
    var ideal := Undisturbed(e, es);
    DisagreeingStep(e, es[0]);
    assert ts == p.targets + rest.targets;
    if Numbered(p.targets, e.lowest) {
      StuckRun(p.engine, es[1..]);
      var at := |p.targets|;
      assert at < |ideal|;
      UndisturbedInTurn(e, es, at);
      if rest.targets != [] {
        assert ts[at] == rest.targets[0];
        assert Numbers(ts)[at] != ideal[at];
      }
    } else {
      var i :| 0 <= i < |p.targets| && p.targets[i].number != e.lowest + i;
      assert Numbers(ts)[i] == p.targets[i].number;
      if i < |ideal| {
        UndisturbedInTurn(e, es, i);
      }
    }
  }

  // ---------- Runs ----------

  lemma {:induction false} NumbersAppend(a: seq<Target>, b: seq<Target>)
    ensures Numbers(a + b) == Numbers(a) + Numbers(b)
  {}

  /**
   The queue makes no difference to the numbers that a run hands out, so that they are the consecutive
   numbers from the lowest on, exactly when each pass finds its part of the queue in order.
   */
  lemma {:induction false} RunExactly(e: Engine, es: seq<Event>)
    ensures Numbers(Run(e, es).targets) == Undisturbed(e, es) <==> AllAgree(e, es)
    decreases |es|
  {
    if es == [] {
      assert Numbers([]) == [];
    } else if !Agrees(e, es[0]) {
      DisagreementShows(e, es);
    } else {
      var p := Step(e, es[0]);
      RunExactly(p.engine, es[1..]);
      NumbersAppend(p.targets, Run(p.engine, es[1..]).targets);
      if es[0].Block? {
        var q := Step(Bare(e), Block);
        AgreesUndisturbed(e, Block);
        UndisturbedBare(p.engine, q.engine, es[1..]);
        SamePrefix(Numbers(p.targets), Numbers(Run(p.engine, es[1..]).targets), Undisturbed(p.engine, es[1..]));
      } else {
        UndisturbedBare(p.engine, e, es[1..]);
        assert Numbers(p.targets) == [];
      }
    }
  }

  lemma {:induction false} SamePrefix(a: seq<nat>, b: seq<nat>, c: seq<nat>)
    ensures a + b == a + c <==> b == c
  {
    if a + b == a + c {
      assert b == (a + b)[|a|..] == (a + c)[|a|..] == c;
    }
  }

  // ---------- Retention ----------

  /** The backlog beyond the window is at most the blocks since the last pass, which are fewer than an interval. */
  ghost predicate Bounded(e: Engine) {
    && e.lastPrune <= e.head
    && (!e.mode.Archive? ==> e.head <= e.lowest + e.mode.keep + (e.head - e.lastPrune))
    && (e.head - e.lastPrune < e.interval || e.head == e.lowest)
  }

  ghost predicate Settled(e: Engine) {
    e.batch >= e.interval >= 1 && !e.mode.Archive?
  }

  lemma {:induction false} StepSpares(e: Engine, event: Event)
    ensures var p := Step(e, event);
      && p.engine.mode == e.mode && p.engine.head >= e.head
      && forall i :: 0 <= i < |p.targets| ==> !IsRetained(p.engine, p.targets[i].number)
  {
    if event.Block? && Prunes(e) {
      var f := AtPass(e);
      forall i | 0 <= i < |Generated(f).targets|
        ensures !IsRetained(f, Generated(f).targets[i].number)
      {
        PassSpares(f, i);
      }
    }
  }

  /** What is not retained is not retained later. */
  lemma {:induction false} StillNotRetained(e: Engine, f: Engine, n: nat)
    requires f.mode == e.mode && f.head >= e.head && !IsRetained(e, n)
    ensures !IsRetained(f, n)
  {}

  /** Whatever is queued and when, no run hands out a block that is retained at its end; so none ever is again. */
  lemma {:induction false} RunSpares(e: Engine, es: seq<Event>)
    ensures var p := Run(e, es);
      && p.engine.mode == e.mode && p.engine.head >= e.head
      && forall i :: 0 <= i < |p.targets| ==> !IsRetained(p.engine, p.targets[i].number)
    decreases |es|
  {
    if es != [] {
      var first := Step(e, es[0]);
      var p := Run(e, es);
      var rest := Run(first.engine, es[1..]);
      StepSpares(e, es[0]);
      RunSpares(first.engine, es[1..]);
      assert p.targets == first.targets + rest.targets;
      forall i | 0 <= i < |p.targets|
        ensures !IsRetained(p.engine, p.targets[i].number)
      {
        if i < |first.targets| {
          StillNotRetained(first.engine, p.engine, first.targets[i].number);
        } else {
          assert p.targets[i] == rest.targets[i - |first.targets|];
        }
      }
    }
  }

  /** With each pass finding its part of the queue in order, the numbers are handed out in turn. */
  lemma {:induction false} RunInTurn(e: Engine, es: seq<Event>)
    requires AllAgree(e, es)
    ensures Numbered(Run(e, es).targets, e.lowest)
  {
    RunExactly(e, es);
    var ts := Run(e, es).targets;
    forall i | 0 <= i < |ts|
      ensures ts[i].number == e.lowest + i
    {
      assert Numbers(ts)[i] == ts[i].number;
      UndisturbedInTurn(e, es, i);
    }
  }

  /** With batches at least as large as the interval, fewer than `keep + interval` blocks remain after every block. */
  lemma {:induction false} BlockBounds(e: Engine)
    requires Agrees(e, Block) && Bounded(e) && Settled(e)
    ensures var f := Step(e, Block).engine; Settled(f) && Bounded(f) && f.head - f.lowest < f.mode.keep + f.interval
  {
    StepAgrees(e, Block);
  }

  lemma {:induction false} RunBounds(e: Engine, es: seq<Event>)
    requires AllAgree(e, es) && Bounded(e) && Settled(e)
    ensures var f := Run(e, es).engine; Bounded(f) && Settled(f) && f.mode == e.mode && f.interval == e.interval
    ensures es != [] && es[|es| - 1] == Block ==>
      var f := Run(e, es).engine; f.head - f.lowest < e.mode.keep + e.interval
    decreases |es|
  {
    if es != [] {
      StepAgrees(e, es[0]);
      if es[0].Block? {
        BlockBounds(e);
      }
      RunBounds(Step(e, es[0]).engine, es[1..]);
      assert |es| > 1 ==> es[1..][|es| - 2] == es[|es| - 1];
    }
  }

  /**
   From a new engine whose passes find the queue in order: the numbers from the initial lowest on, each
   once, none of them retained then or later, and after every block fewer than `keep + interval` remain.
   */
  lemma {:induction false} RetentionOnEveryRun(mode: Mode, batch: nat, interval: nat, lowest: nat, es: seq<Event>)
    requires mode != Archive && batch >= interval >= 1 && AllAgree(Fresh(mode, batch, interval, lowest), es)
    ensures var p := Run(Fresh(mode, batch, interval, lowest), es);
      && Numbered(p.targets, lowest)
      && (forall i :: 0 <= i < |p.targets| ==> !IsRetained(p.engine, p.targets[i].number))
      && (es != [] && es[|es| - 1] == Block ==> p.engine.head - p.engine.lowest < mode.keep + interval)
  {
    var e := Fresh(mode, batch, interval, lowest);
    RunInTurn(e, es);
    RunSpares(e, es);
    RunBounds(e, es);
  }

  // ---------- What the caller can do ----------

  /** The queue holds consecutive numbers from the lowest stored one on. */
  ghost predicate Ordered(e: Engine) {
    forall i :: 0 <= i < |e.queue| ==> e.queue[i].number == e.lowest + i
  }

  /** A block is queued only when it is the next one after what the engine has handed out and what is queued. */
  predicate Guarded(e: Engine, es: seq<Event>)
    decreases |es|
  {
    es == [] || ((es[0].Enqueue? ==> es[0].number == e.lowest + |e.queue|) && Guarded(Step(e, es[0]).engine, es[1..]))
  }

  lemma {:induction false} StepOrdered(e: Engine, event: Event)
    requires Ordered(e) && (event.Enqueue? ==> event.number == e.lowest + |e.queue|)
    ensures Agrees(e, event) && Ordered(Step(e, event).engine)
  {
    if event.Block? && Prunes(e) {
      PassExactly(AtPass(e));
    }
  }

  /** Guarded so, every pass finds the queue in order. */
  lemma {:induction false} GuardSuffices(e: Engine, es: seq<Event>)
    requires Ordered(e) && Guarded(e, es)
    ensures AllAgree(e, es)
    decreases |es|
  {
    if es != [] {
      StepOrdered(e, es[0]);
      GuardSuffices(Step(e, es[0]).engine, es[1..]);
    }
  }

  /** Queued one block late, the first consecutive block is handed out twice. */
  lemma {:induction false} OneBlockLate(hash: nat)
    ensures var e := Fresh(KeepRecent(0), 100, 1, 0);
      Numbers(Run(e, [Block, Enqueue(0, hash), Block]).targets) == [0, 0, 1]
  {
    var e := Fresh(KeepRecent(0), 100, 1, 0);
    var first := Step(e, Block);
    PassExactly(AtPass(e));
    assert Numbers(first.targets) == [0];
    var second := Step(first.engine, Enqueue(0, hash)).engine;
    assert second == first.engine.(queue := [Queued(0, hash)]);
    LateTwice(second, hash);
    var es := [Block, Enqueue(0, hash), Block];
    assert es[1..] == [Enqueue(0, hash), Block];
    assert es[1..][1..] == [Block];
    assert [Block][1..] == [];
    var third := Step(second, Block);
    assert Run(second, [Block]).targets == third.targets;
    assert Run(first.engine, es[1..]).targets == third.targets;
    NumbersAppend(first.targets, third.targets);
    assert [0] + [0, 1] == [0, 0, 1];
  }

  lemma {:induction false} LateTwice(e: Engine, hash: nat)
    requires e == Fresh(KeepRecent(0), 100, 1, 0).(head := 1, lowest := 1, lastPrune := 1, queue := [Queued(0, hash)])
    ensures Numbers(Step(e, Block).targets) == [0, 1]
  {
    var f := AtPass(e).(queue := []);
    LateEnqueueRepeats(f, 0, hash);
    assert Step(e, Block) == Generated(f.(queue := [Queued(0, hash)]));
  }
}

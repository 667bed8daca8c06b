/**
 What one received block changes, told without the loops: which numbers are asked for and in which order,
 which waiting blocks are applied, kept or dropped, and that on every run each gap was asked for. The
 chain's verdicts are arbitrary throughout.
 */
module ReassemblyEffects {
  import opened OrderedKeys
  import opened Primitives
  import opened Reassembly

  // ---------- What is asked for ----------

  /** `n` lies strictly between the head and the early block, and is neither asked for nor waiting. */
  predicate Gap(s: State, b: Block, n: nat) {
    s.Head() < n < b.header.number && n !in s.requested && n !in s.buffer
  }

  /** `after` is `before` followed by exactly the gaps, lowest first. */
  ghost predicate AsksGaps(s: State, b: Block, before: seq<nat>, after: seq<nat>) {
    && before <= after
    && Increasing(after[|before|..])
    && forall n: nat :: n in after[|before|..] <==> Gap(s, b, n)
  }

  lemma {:induction false} AskedInOrder(buffer: map<nat, Block>, a: Asked, lo: nat, hi: nat)
    ensures var r := AskMissing(buffer, a, lo, hi);
      && a.sent <= r.sent && Increasing(r.sent[|a.sent|..])
      && (forall n: nat :: n in r.sent[|a.sent|..] <==> lo <= n < hi && n !in a.requested && n !in buffer)
      && (forall n: nat :: n in r.requested <==> n in a.requested || (lo <= n < hi && n !in buffer))
    decreases hi - lo
  {
    if lo < hi {
      if lo in a.requested || lo in buffer {
        AskedInOrder(buffer, a, lo + 1, hi);
      } else {
        var one := Asked(a.requested + {lo}, a.sent + [lo]);
        AskedInOrder(buffer, one, lo + 1, hi);
        AskedFirst(a.sent, one.sent, AskMissing(buffer, one, lo + 1, hi).sent, lo);
      }
    }
  }

  lemma AskedFirst(before: seq<nat>, one: seq<nat>, after: seq<nat>, lo: nat)
    requires one == before + [lo] && one <= after && Increasing(after[|one|..])
    requires forall n :: n in after[|one|..] ==> lo < n
    ensures before <= after && after[|before|..] == [lo] + after[|one|..] && Increasing(after[|before|..])
  {
    var rest := after[|one|..];
    assert after[|before|..] == [lo] + rest;
    forall j | 0 <= j < |rest|
      ensures lo < rest[j]
    {
      assert rest[j] in rest;
    }
  }

  lemma {:induction false} EarlyIs(accepts: Accepts, s: State, b: Block)
    requires s.Head() + 1 < b.header.number
    ensures var t := OnBlock(accepts, s, b);
      && t.applied == s.applied && t.base == s.base
      && Asked(t.requested, t.sent) ==
         AskMissing(s.buffer[b.header.number := b], Asked(s.requested, s.sent), s.Head() + 1, b.header.number)
  {}

  lemma {:induction false} GapsAskedFor(s: State, b: Block, r: Asked)
    requires r ==
      AskMissing(s.buffer[b.header.number := b], Asked(s.requested, s.sent), s.Head() + 1, b.header.number)
    ensures AsksGaps(s, b, s.sent, r.sent)
    ensures forall n: nat :: n in r.requested <==> n in s.requested || Gap(s, b, n)
  {
    AskedInOrder(s.buffer[b.header.number := b], Asked(s.requested, s.sent), s.Head() + 1, b.header.number);
  }

  /** An early block has exactly the gaps below it asked for, lowest first; nothing else is forgotten. */
  lemma {:induction false} EarlyAsksExactly(accepts: Accepts, s: State, b: Block)
    requires s.Head() + 1 < b.header.number
    ensures var t := OnBlock(accepts, s, b);
      && t.applied == s.applied && t.base == s.base
      && AsksGaps(s, b, s.sent, t.sent)
      && (forall n: nat :: n in t.sent <==> n in s.sent || Gap(s, b, n))
      && (forall n: nat :: n in t.requested <==> n in s.requested || Gap(s, b, n))
  {
    var t := OnBlock(accepts, s, b);
    EarlyIs(accepts, s, b);
    GapsAskedFor(s, b, Asked(t.requested, t.sent));
    assert t.sent == s.sent + t.sent[|s.sent|..];
  }

  // ---------- What is applied ----------

  /** `n` was the number of a buffered block when draining started, and was reached. */
  predicate Reached(s: State, t: State, n: nat) { s.Head() < n <= t.Head() }

  /** The blocks applied on the way from `s` to `t` were waiting, and each was accepted in its turn. */
  ghost predicate AppliedWaiting(accepts: Accepts, s: State, t: State) {
    && t.base == s.base && s.applied <= t.applied
    && forall i :: |s.applied| <= i < |t.applied| ==>
         && s.base + 1 + i in s.buffer && t.applied[i] == s.buffer[s.base + 1 + i]
         && accepts(t.applied[..i], t.applied[i])
  }

  lemma AppliedOneMore(accepts: Accepts, s: State, one: State, t: State)
    requires s.Head() + 1 in s.buffer && accepts(s.applied, s.buffer[s.Head() + 1])
    requires one.base == s.base && one.applied == s.applied + [s.buffer[s.Head() + 1]]
    requires one.buffer == s.buffer - {s.Head() + 1}
    requires AppliedWaiting(accepts, one, t)
    ensures AppliedWaiting(accepts, s, t)
  {
    assert t.applied[..|s.applied|] == s.applied;
  }

  /**
   Draining applies waiting blocks in turn until the next one is not there or is refused. Those applied
   leave the buffer and are no longer asked for, a refused one leaves the buffer too, and all others stay.
   */
  lemma {:induction false} DrainExactly(accepts: Accepts, s: State)
    ensures var t := Drain(accepts, s); var next := t.Head() + 1;
      && AppliedWaiting(accepts, s, t) && t.sent == s.sent
      && (next in s.buffer ==> !accepts(t.applied, s.buffer[next]))
      && (forall n: nat :: n in t.buffer <==> n in s.buffer && !Reached(s, t, n) && n != next)
      && (forall n: nat :: n in t.buffer ==> t.buffer[n] == s.buffer[n])
      && (forall n: nat :: n in t.requested <==> n in s.requested && !Reached(s, t, n))
    decreases s.buffer.Keys
  {
    var next := s.Head() + 1;
    if next in s.buffer && accepts(s.applied, s.buffer[next]) {
      var one := Applied(s.(buffer := s.buffer - {next}), s.buffer[next]);
      DrainExactly(accepts, one);
      AppliedOneMore(accepts, s, one, Drain(accepts, one));
    }
  }

  /** The next block, if accepted, is applied and then the waiting ones; it leaves no request behind. */
  lemma {:induction false} NextExactly(accepts: Accepts, s: State, b: Block)
    requires b.header.number == s.Head() + 1
    ensures var t := OnBlock(accepts, s, b);
      && t.sent == s.sent
      && (!accepts(s.applied, b) ==> t.applied == s.applied && t.requested == s.requested)
      && (accepts(s.applied, b) ==>
            && s.applied + [b] <= t.applied
            && (forall n: nat :: n in t.requested <==> n in s.requested && !Reached(s, t, n)))
  {
    if accepts(s.applied, b) {
      DrainExactly(accepts, Applied(s, b));
    }
  }

  // ---------- What fits ----------

  /** Of a buffer that is too long exactly the 1000 highest numbers stay. */
  lemma {:induction false} TrimExactly(buffer: map<nat, Block>)
    ensures var r := Trim(buffer);
      && (forall n :: n in r ==> n in buffer && r[n] == buffer[n])
      && |r| == (if |buffer| > 1000 then 1000 else |buffer|)
      && (forall n, k :: n in buffer && n !in r && k in r ==> n < k)
    decreases |buffer|
  {
    if |buffer| > 1000 {
      var least := Least(buffer.Keys);
      var rest := buffer - {least};
      assert rest.Keys == buffer.Keys - {least};
      assert |rest.Keys| == |buffer.Keys| - 1 && |rest| == |rest.Keys| && |buffer| == |buffer.Keys|;
      TrimExactly(rest);
    }
  }

  // ---------- Every gap on every run ----------

  ghost predicate Delivered(bs: seq<Block>, n: nat) {
    exists i :: 0 <= i < |bs| && bs[i].header.number == n
  }

  /** Each number between the head and `top` was asked for and still is, or was delivered. */
  ghost predicate GapsAsked(s: State, bs: seq<Block>, top: nat) {
    forall n: nat :: s.Head() < n < top ==> (n in s.sent && n in s.requested) || Delivered(bs, n)
  }

  ghost predicate Covered(s: State, bs: seq<Block>) {
    && (forall i :: 0 <= i < |bs| ==> GapsAsked(s, bs, bs[i].header.number))
    && (forall n :: n in s.buffer ==> Delivered(bs, n))
    && (forall n :: n in s.requested ==> n in s.sent)
  }

  lemma DeliveredMore(bs: seq<Block>, b: Block, n: nat)
    ensures Delivered(bs + [b], n) <==> Delivered(bs, n) || n == b.header.number
  {
    var all := bs + [b];
    if Delivered(bs, n) {
      var i :| 0 <= i < |bs| && bs[i].header.number == n;
      assert all[i].header.number == n;
    }
    assert all[|bs|].header.number == b.header.number;
  }

  /** What covering needs of a step: the head never falls, and requests go only when their block is reached. */
  ghost predicate Steps(s: State, t: State, b: Block) {
    && s.Head() <= t.Head()
    && (forall n :: n in s.sent ==> n in t.sent)
    && (forall n :: n in s.requested && t.Head() < n ==> n in t.requested)
    && (forall n :: n in t.requested ==> n in s.requested || n in t.sent)
    && (forall n :: n in t.buffer ==> n in s.buffer || n == b.header.number)
    && (forall n: nat :: t.Head() < n < b.header.number ==> n in t.requested || n in s.buffer)
  }

  lemma CoveredStep(s: State, t: State, bs: seq<Block>, b: Block)
    requires Covered(s, bs) && Steps(s, t, b)
    ensures Covered(t, bs + [b])
  {
    var all := bs + [b];
    forall n: nat
      ensures Delivered(all, n) <==> Delivered(bs, n) || n == b.header.number
    {
      DeliveredMore(bs, b, n);
    }
    forall i | 0 <= i < |all|
      ensures GapsAsked(t, all, all[i].header.number)
    {
      if i < |bs| {
        assert GapsAsked(s, bs, bs[i].header.number);
      }
    }
  }

  lemma FitKeepsFewer(s: State)
    ensures var t := Fit(s); t == s.(buffer := t.buffer) && forall n :: n in t.buffer ==> n in s.buffer
  {
    TrimExactly(s.buffer);
  }

  lemma {:induction false} BlockSteps(accepts: Accepts, s: State, b: Block)
    ensures Steps(s, OnBlock(accepts, s, b), b)
  {
    if b.header.number > s.Head() + 1 {
      EarlyAsksExactly(accepts, s, b);
      FitKeepsFewer(OnEarly(s, b));
    } else if b.header.number == s.Head() + 1 {
      NextExactly(accepts, s, b);
      if accepts(s.applied, b) {
        DrainExactly(accepts, Applied(s, b));
        FitKeepsFewer(Drain(accepts, Applied(s, b)));
      } else {
        FitKeepsFewer(s);
      }
    }
  }

  lemma {:induction false} RunCovered(accepts: Accepts, s: State, before: seq<Block>, bs: seq<Block>)
    requires Covered(s, before)
    ensures Covered(OnBlocks(accepts, s, bs), before + bs)
    decreases |bs|
  {
    if bs == [] {
      assert before + bs == before;
    } else {
      var t := OnBlock(accepts, s, bs[0]);
      BlockSteps(accepts, s, bs[0]);
      CoveredStep(s, t, before, bs[0]);
      RunCovered(accepts, t, before + [bs[0]], bs[1..]);
      assert before + [bs[0]] + bs[1..] == before + bs;
    }
  }

  /**
   On every run from a fresh node, each number strictly between the head and any block received so far
   was asked for, and still is, or was delivered.
   */
  lemma {:induction false} EveryGapAsked(accepts: Accepts, base: nat, bs: seq<Block>, i: nat, n: nat)
    requires i < |bs|
    requires OnBlocks(accepts, Init(base), bs).Head() < n < bs[i].header.number
    ensures var s := OnBlocks(accepts, Init(base), bs);
      (n in s.sent && n in s.requested) || exists k :: 0 <= k < |bs| && bs[k].header.number == n
  {
    RunCovered(accepts, Init(base), [], bs);
    assert [] + bs == bs;
    assert GapsAsked(OnBlocks(accepts, Init(base), bs), bs, bs[i].header.number);
  }
}

/**
 What a player can still complete, from any state of a run. Hopeless quests never leave the list, so they
 take its places for good: a quest can be completed exactly when it is open and they leave one.
 */
module QuestRoom {
  import opened Wrappers
  import opened Quests
  import opened QuestRuns
  import opened QuestReach

  /** How many of these quests are hopeless. */
  ghost function LostCount(reg: Registry, ids: seq<QuestId>): nat {
    if ids == [] then 0 else (if Lost(reg, ids[0]) then 1 else 0) + LostCount(reg, ids[1..])
  }

  /** The places on the list that are taken for good. */
  ghost function Taken(reg: Registry, g: Game): nat { LostCount(reg, Ids(g.state.active)) }

  lemma {:induction false} LostAppend(reg: Registry, a: seq<QuestId>, b: seq<QuestId>)
    ensures LostCount(reg, a + b) == LostCount(reg, a) + LostCount(reg, b)
    decreases |a|
  {
    if a == [] {
      assert a + b == b;
    } else {
      assert (a + b)[1..] == a[1..] + b;
      LostAppend(reg, a[1..], b);
    }
  }

  lemma {:induction false} LostAtMost(reg: Registry, active: seq<Active>)
    ensures LostCount(reg, Ids(active)) <= |active|
    ensures LostCount(reg, Ids(active)) == |active| <==> forall a :: a in active ==> Lost(reg, a.quest)
    decreases |active|
  {
    if active != [] {
      LostAtMost(reg, active[1..]);
      assert active == [active[0]] + active[1..];
      assert Ids(active)[0] == active[0].quest && Ids(active)[1..] == Ids(active[1..]);
    }
  }

  /** Handing in leaves the hopeless ones where they are. */
  lemma {:induction false} LostKept(reg: Registry, active: seq<Active>)
    requires forall a :: a in active && Lost(reg, a.quest) ==> !Done(reg, a)
    ensures LostCount(reg, Ids(Kept(reg, active))) == LostCount(reg, Ids(active))
    decreases |active|
  {
    if active != [] {
      assert active == [active[0]] + active[1..];
      LostKept(reg, active[1..]);
      assert Ids(active)[0] == active[0].quest && Ids(active)[1..] == Ids(active[1..]);
      if !Done(reg, active[0]) {
        var kept := Kept(reg, active);
        assert kept[0] == active[0] && kept[1..] == Kept(reg, active[1..]);
        assert Ids(kept)[0] == active[0].quest && Ids(kept)[1..] == Ids(kept[1..]);
      }
    }
  }

  lemma {:induction false} LostNeverDone(reg: Registry, g: Game, a: Active)
    requires Fine(reg, g) && a in g.state.active && Lost(reg, a.quest)
    ensures !Done(reg, a)
  {
    var i :| 0 <= i < |g.state.active| && g.state.active[i] == a;
    assert GoodActive(reg, g.state.active[i], g.state.completed) && PositiveQuest(reg[a.quest]);
    HopelessNotDone(reg, a, g.state.completed);
  }

  /** No event takes a hopeless quest off the list, and only taking a quest can add one. */
  lemma {:induction false} StepTaken(reg: Registry, g: Game, e: Event)
    requires Fine(reg, g)
    ensures Taken(reg, Step(reg, g, e)) >= Taken(reg, g)
    ensures !e.Take? ==> Taken(reg, Step(reg, g, e)) == Taken(reg, g)
  {
    var s := g.state;
    if e.Take? {
      if AcceptError(reg, s, e.id, e.level).None? {
        var a := Active(e.id, Begun(reg[e.id]), e.tick);
        IdsAppend(s.active, [a]);
        LostAppend(reg, Ids(s.active), Ids([a]));
      }
    } else if e.Did? {
      if AllShaped(reg, s.active) {
        SameIds(s.active, AllAdvanced(reg, s.active, e.deed));
      }
    } else {
      forall a | a in s.active && Lost(reg, a.quest)
        ensures !Done(reg, a)
      {
        LostNeverDone(reg, g, a);
      }
      LostKept(reg, s.active);
    }
  }

  lemma {:induction false} RunFine(reg: Registry, g: Game, es: seq<Event>)
    requires Fine(reg, g)
    ensures Fine(reg, Run(reg, g, es))
  {
    RunKeeps(reg, g, es);
  }

  ghost predicate NoTake(es: seq<Event>) { forall e :: e in es ==> !e.Take? }

  lemma {:induction false} RunTaken(reg: Registry, g: Game, es: seq<Event>)
    requires Fine(reg, g) && NoTake(es)
    ensures Taken(reg, Run(reg, g, es)) == Taken(reg, g)
    decreases |es|
  {
    if es != [] {
      assert es[0] in es;
      assert NoTake(es[1..]);
      RunFine(reg, g, [es[0]]);
      LastEvent(reg, g, es[0]);
      StepTaken(reg, g, es[0]);
      RunTaken(reg, Step(reg, g, es[0]), es[1..]);
    }
  }

  // ---------- With room ----------

  lemma {:induction false} FinishOne(reg: Registry, g: Game, i: nat) returns (es: seq<Event>)
    requires Fine(reg, g) && i < |g.state.active| && !Lost(reg, g.state.active[i].quest)
    ensures var h := Run(reg, g, es);
      Fine(reg, h) && Later(g, h) && |h.state.active| < |g.state.active| && Taken(reg, h) == Taken(reg, g)
  {
    assert GoodActive(reg, g.state.active[i], g.state.completed);
    var deeds := ActiveCanFinish(reg, g, i);
    es := deeds + [Check];
    RunTaken(reg, g, es);
  }

  /** Finish whatever can be finished. */
  lemma {:induction false} ClearList(reg: Registry, g: Game) returns (es: seq<Event>)
    requires Fine(reg, g) && Taken(reg, g) < g.state.maxActive
    ensures Idle(reg, Run(reg, g, es)) && Later(g, Run(reg, g, es))
    decreases |g.state.active|
  {
    LostAtMost(reg, g.state.active);
    if i :| 0 <= i < |g.state.active| && !Lost(reg, g.state.active[i].quest) {
      var first := FinishOne(reg, g, i);
      var rest := ClearList(reg, Run(reg, g, first));
      es := first + rest;
      RunAppend(reg, g, first, rest);
    } else {
      es := [];
      assert forall a :: a in g.state.active ==> Lost(reg, a.quest);
    }
  }

  // ---------- Without room ----------

  lemma {:induction false} NoneDone(reg: Registry, active: seq<Active>)
    requires forall a :: a in active ==> !Done(reg, a)
    ensures DoneIds(reg, active) == []
    decreases |active|
  {
    if active != [] {
      assert active == [active[0]] + active[1..];
      NoneDone(reg, active[1..]);
    }
  }

  lemma {:induction false} StepBlocked(reg: Registry, g: Game, e: Event)
    requires Fine(reg, g) && Taken(reg, g) >= g.state.maxActive
    ensures Step(reg, g, e).state.completed == g.state.completed
    ensures Step(reg, g, e).state.maxActive == g.state.maxActive
  {
    LostAtMost(reg, g.state.active);
    if e.Check? {
      forall a | a in g.state.active
        ensures !Done(reg, a)
      {
        LostNeverDone(reg, g, a);
      }
      NoneDone(reg, g.state.active);
      assert g.state.completed + [] == g.state.completed;
    }
  }

  /** A list full of hopeless quests blocks a player for good: nothing is completed any more, whatever is done. */
  lemma {:induction false} BlockedForGood(reg: Registry, g: Game, es: seq<Event>)
    requires Fine(reg, g) && Taken(reg, g) >= g.state.maxActive
    ensures Run(reg, g, es).state.completed == g.state.completed
    decreases |es|
  {
    if es != [] {
      StepBlocked(reg, g, es[0]);
      StepTaken(reg, g, es[0]);
      StepKeeps(reg, g, es[0]);
      BlockedForGood(reg, Step(reg, g, es[0]), es[1..]);
    }
  }

  // ---------- Exactly ----------

  ghost predicate StillCompletable(reg: Registry, g: Game, id: QuestId) {
    exists es :: id in Run(reg, g, es).state.completed
  }

  /** What can be completed from here on: what is completed already, and what is open while there is room. */
  lemma {:induction false} CompletableFromExactly(reg: Registry, g: Game, id: QuestId)
    requires Fine(reg, g) && OnlyOpen(reg, g.state.completed)
    ensures StillCompletable(reg, g, id) <==>
      id in g.state.completed || (Open(reg, id) && Taken(reg, g) < g.state.maxActive)
  {
    if es :| id in Run(reg, g, es).state.completed {
      RunOnlyOpen(reg, g, es);
      if Taken(reg, g) >= g.state.maxActive {
        BlockedForGood(reg, g, es);
      }
    }
    if id in g.state.completed {
      assert id in Run(reg, g, []).state.completed;
    } else if Open(reg, id) && Taken(reg, g) < g.state.maxActive {
      var levels: nat :| OpenIn(reg, id, levels);
      var first := ClearList(reg, g);
      var rest := CompleteOne(reg, Run(reg, g, first), id, levels);
      RunAppend(reg, g, first, rest);
      assert id in Run(reg, g, first + rest).state.completed;
    }
  }

  /** In particular after any run of a new player. */
  lemma {:induction false} CompletableAfterExactly(reg: Registry, maxActive: nat, es: seq<Event>, id: QuestId)
    requires Positive(reg)
    ensures var g := Run(reg, NewPlayer(maxActive), es);
      StillCompletable(reg, g, id) <==>
        id in g.state.completed || (Open(reg, id) && Taken(reg, g) < maxActive)
  {
    var start := NewPlayer(maxActive);
    RunFine(reg, start, es);
    RunOnlyOpen(reg, start, es);
    MaxStays(reg, start, es);
    CompletableFromExactly(reg, Run(reg, start, es), id);
  }
}

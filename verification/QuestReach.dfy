/**
 Which quests can be completed at all: exactly those that ask for nothing but kills, gathering and
 crafting and whose prerequisites can be completed before them.
 */
module QuestReach {
  import opened Wrappers
  import opened Quests
  import opened QuestRuns

  ghost predicate Hopeless(q: Quest) {
    exists k :: 0 <= k < |q.objectives| && Unreachable(q.objectives[k])
  }

  /** The quest is known, nothing about it is hopeless, and its prerequisites are open in fewer levels. */
  ghost predicate OpenIn(reg: Registry, id: QuestId, levels: nat)
    decreases levels, 0
  {
    levels > 0 && id in reg && !Hopeless(reg[id]) && PrerequisitesOpen(reg, reg[id].prerequisites, levels - 1)
  }

  ghost predicate PrerequisitesOpen(reg: Registry, ps: seq<QuestId>, levels: nat)
    decreases levels, 1
  {
    forall k :: 0 <= k < |ps| ==> OpenIn(reg, ps[k], levels)
  }

  ghost predicate Open(reg: Registry, id: QuestId) {
    exists levels: nat :: OpenIn(reg, id, levels)
  }

  // ---------- What is not open is never completed ----------

  lemma {:induction false} OpenInMore(reg: Registry, id: QuestId, a: nat, b: nat)
    requires OpenIn(reg, id, a) && a <= b
    ensures OpenIn(reg, id, b)
    decreases a
  {
    var ps := reg[id].prerequisites;
    forall k | 0 <= k < |ps|
      ensures OpenIn(reg, ps[k], b - 1)
    {
      OpenInMore(reg, ps[k], a - 1, b - 1);
    }
  }

  /** Finitely many open quests are open in one common number of levels. */
  lemma {:induction false} OpenTogether(reg: Registry, ps: seq<QuestId>) returns (levels: nat)
    requires forall k :: 0 <= k < |ps| ==> Open(reg, ps[k])
    ensures PrerequisitesOpen(reg, ps, levels)
    decreases |ps|
  {
    if ps == [] {
      levels := 0;
    } else {
      var first: nat :| OpenIn(reg, ps[0], first);
      var rest := OpenTogether(reg, ps[1..]);
      levels := if first < rest then rest else first;
      OpenInMore(reg, ps[0], first, levels);
      forall k | 0 <= k < |ps|
        ensures OpenIn(reg, ps[k], levels)
      {
        if k > 0 {
          assert ps[1..][k - 1] == ps[k];
          OpenInMore(reg, ps[1..][k - 1], rest, levels);
        }
      }
    }
  }

  /** A quest is open exactly when it is known, not hopeless, and all its prerequisites are open. */
  lemma {:induction false} OpenExactly(reg: Registry, id: QuestId)
    ensures Open(reg, id) <==>
      id in reg && !Hopeless(reg[id])
      && forall k :: 0 <= k < |reg[id].prerequisites| ==> Open(reg, reg[id].prerequisites[k])
  {
    if Open(reg, id) {
      var levels: nat :| OpenIn(reg, id, levels);
      var ps := reg[id].prerequisites;
      assert PrerequisitesOpen(reg, ps, levels - 1);
      forall k | 0 <= k < |ps|
        ensures Open(reg, ps[k])
      {
        assert OpenIn(reg, ps[k], levels - 1);
      }
    } else if id in reg && !Hopeless(reg[id]) {
      var ps := reg[id].prerequisites;
      if forall k :: 0 <= k < |ps| ==> Open(reg, ps[k]) {
        var levels := OpenTogether(reg, ps);
        assert OpenIn(reg, id, levels + 1);
      }
    }
  }

  ghost predicate OnlyOpen(reg: Registry, completed: seq<QuestId>) {
    forall id :: id in completed ==> Open(reg, id)
  }

  lemma {:induction false} HopelessNotDone(reg: Registry, a: Active, completed: seq<QuestId>)
    requires GoodActive(reg, a, completed) && Hopeless(reg[a.quest]) && PositiveQuest(reg[a.quest])
    ensures !Done(reg, a)
  {
    var q := reg[a.quest];
    var k :| 0 <= k < |q.objectives| && Unreachable(q.objectives[k]);
    assert InRange(q.objectives[k], a.objectives[k]);
    assert !a.objectives[k].complete;
  }

  lemma {:induction false} DoneOpen(reg: Registry, a: Active, completed: seq<QuestId>)
    requires GoodActive(reg, a, completed) && PositiveQuest(reg[a.quest]) && Done(reg, a) && OnlyOpen(reg, completed)
    ensures Open(reg, a.quest)
  {
    if Hopeless(reg[a.quest]) {
      HopelessNotDone(reg, a, completed);
    }
    OpenExactly(reg, a.quest);
  }

  lemma {:induction false} StepOnlyOpen(reg: Registry, g: Game, e: Event)
    requires Sound(reg, g.state) && Positive(reg) && OnlyOpen(reg, g.state.completed)
    ensures OnlyOpen(reg, Step(reg, g, e).state.completed)
  {
    if e.Check? {
      var s := g.state;
      forall id | id in Backwards(DoneIds(reg, s.active))
        ensures Open(reg, id)
      {
        HandedIn(reg, s.active, id);
        var a :| a in s.active && a.quest == id && Done(reg, a);
        assert GoodActive(reg, a, s.completed) && PositiveQuest(reg[id]);
        DoneOpen(reg, a, s.completed);
      }
    }
  }

  lemma {:induction false} RunOnlyOpen(reg: Registry, g: Game, es: seq<Event>)
    requires Sound(reg, g.state) && Balanced(reg, g) && Positive(reg) && OnlyOpen(reg, g.state.completed)
    ensures OnlyOpen(reg, Run(reg, g, es).state.completed)
    decreases |es|
  {
    if es != [] {
      StepKeeps(reg, g, es[0]);
      StepOnlyOpen(reg, g, es[0]);
      RunOnlyOpen(reg, Step(reg, g, es[0]), es[1..]);
    }
  }

  /** What is not open is never completed, and what has a prerequisite that is not open is never even active. */
  lemma {:induction false} OnlyOpenOnEveryRun(reg: Registry, maxActive: nat, es: seq<Event>, id: QuestId)
    requires Positive(reg)
    ensures var s := Run(reg, NewPlayer(maxActive), es).state;
      && (id in s.completed ==> Open(reg, id))
      && (IsActive(s, id) ==> id in reg && forall p :: p in reg[id].prerequisites ==> Open(reg, p))
  {
    RunOnlyOpen(reg, NewPlayer(maxActive), es);
    QuestsOnEveryRun(reg, maxActive, es, id);
  }

  /** A quest that asks to explore, deliver or talk is never completed, whether or not anything depends on it. */
  lemma {:induction false} HopelessNeverCompleted(reg: Registry, maxActive: nat, es: seq<Event>, id: QuestId)
    requires Positive(reg) && id in reg && Hopeless(reg[id])
    ensures id !in Run(reg, NewPlayer(maxActive), es).state.completed
  {
    OnlyOpenOnEveryRun(reg, maxActive, es, id);
    OpenExactly(reg, id);
  }

  // ---------- Every other quest can be finished ----------

  lemma {:induction false} RunAppend(reg: Registry, g: Game, a: seq<Event>, b: seq<Event>)
    ensures Run(reg, g, a + b) == Run(reg, Run(reg, g, a), b)
    decreases |a|
  {
    if a == [] {
      assert a + b == b;
    } else {
      assert (a + b)[1..] == a[1..] + b;
      RunAppend(reg, Step(reg, g, a[0]), a[1..], b);
    }
  }

  lemma {:induction false} AdvanceAt(id: QuestId, os: seq<Objective>, ps: seq<Progress>, d: Deed, i: nat, k: nat)
    requires i <= |os| <= |ps| && k < |ps|
    ensures var r := Advance(id, os, ps, d, i).objectives;
      && |r| == |ps|
      && r[k] == if i <= k < |os| && Moves(os[k], ps[k], d) then Bumped(ps[k], d) else ps[k]
    decreases |os| - i
  {
    if i < |os| {
      if Moves(os[i], ps[i], d) {
        AdvanceAt(id, os, ps[i := Bumped(ps[i], d)], d, i + 1, k);
      } else {
        AdvanceAt(id, os, ps, d, i + 1, k);
      }
    }
  }

  /** One unit of what the objective asks for. */
  function OneUnit(o: Objective): Deed
    requires !Unreachable(o)
  {
    match o
    case Kill(npc, _) => Killed(npc)
    case Gather(item, _) => Gathered(item, 1)
    case Craft(item, _) => Crafted(item, 1)
  }

  /** One unit closer, and nothing that was complete comes undone. */
  ghost predicate Nearer(a: Active, b: Active, k: nat) {
    && b.quest == a.quest && |b.objectives| == |a.objectives| && k < |a.objectives|
    && b.objectives[k].current == a.objectives[k].current + 1
    && b.objectives[k].required == a.objectives[k].required
    && forall j :: 0 <= j < |a.objectives| && a.objectives[j].complete ==> b.objectives[j].complete
  }

  lemma {:induction false} OneUnitNearer(reg: Registry, a: Active, k: nat)
    requires a.quest in reg && AllInRange(reg[a.quest].objectives, a.objectives) && PositiveQuest(reg[a.quest])
    requires k < |a.objectives| && !a.objectives[k].complete && !Unreachable(reg[a.quest].objectives[k])
    ensures Nearer(a, Advanced(reg, a, OneUnit(reg[a.quest].objectives[k])), k)
  {
    var os := reg[a.quest].objectives;
    var d := OneUnit(os[k]);
    assert InRange(os[k], a.objectives[k]);
    forall j | 0 <= j < |a.objectives|
      ensures var r := Advance(a.quest, os, a.objectives, d, 0).objectives;
        |r| == |a.objectives| && r[j] == if Moves(os[j], a.objectives[j], d) then Bumped(a.objectives[j], d)
            else a.objectives[j]
    {
      AdvanceAt(a.quest, os, a.objectives, d, 0, j);
    }
    assert Advanced(reg, a, d).objectives == Advance(a.quest, os, a.objectives, d, 0).objectives;
    assert |Advanced(reg, a, d).objectives| == |a.objectives| by {
      AdvanceAt(a.quest, os, a.objectives, d, 0, k);
    }
    assert Bumped(a.objectives[k], d).current == a.objectives[k].current + 1;
  }

  /** Only deeds: the list of quests and what is completed stay as they are. */
  ghost predicate SameQuests(g: Game, h: Game) {
    && h.state.completed == g.state.completed && h.state.maxActive == g.state.maxActive
    && |h.state.active| == |g.state.active|
    && forall j :: 0 <= j < |g.state.active| ==> h.state.active[j].quest == g.state.active[j].quest
  }

  ghost predicate Fine(reg: Registry, g: Game) {
    Sound(reg, g.state) && Balanced(reg, g) && Positive(reg)
  }

  ghost predicate Up(a: Active, b: Active) {
    && |b.objectives| == |a.objectives|
    && forall j :: 0 <= j < |a.objectives| && a.objectives[j].complete ==> b.objectives[j].complete
  }

  /** One deed of one unit for objective `k` of quest `i` on the list. */
  lemma {:induction false} DoOne(reg: Registry, g: Game, i: nat, k: nat) returns (d: Deed)
    requires Fine(reg, g) && i < |g.state.active| && k < |g.state.active[i].objectives|
    requires !g.state.active[i].objectives[k].complete && !Hopeless(reg[g.state.active[i].quest])
    ensures var h := Step(reg, g, Did(d));
      Fine(reg, h) && SameQuests(g, h) && Nearer(g.state.active[i], h.state.active[i], k)
  {
    var a := g.state.active[i];
    assert GoodActive(reg, a, g.state.completed) && PositiveQuest(reg[a.quest]);
    d := OneUnit(reg[a.quest].objectives[k]);
    StepKeeps(reg, g, Did(d));
    DidKeepsSound(reg, g.state, d);
    OneUnitNearer(reg, a, k);
  }

  ghost predicate Progressed(reg: Registry, g: Game, h: Game, i: nat) {
    && Fine(reg, h) && SameQuests(g, h) && i < |g.state.active|
    && Up(g.state.active[i], h.state.active[i])
  }

  ghost predicate OnlyDeeds(es: seq<Event>) { forall e :: e in es ==> e.Did? }

  /** Unit by unit, one objective is completed. */
  lemma {:induction false} FinishObjective(reg: Registry, g: Game, i: nat, k: nat, left: nat) returns (es: seq<Event>)
    requires Fine(reg, g) && i < |g.state.active| && k < |g.state.active[i].objectives|
    requires !Hopeless(reg[g.state.active[i].quest])
    requires left == g.state.active[i].objectives[k].required - g.state.active[i].objectives[k].current
    ensures Progressed(reg, g, Run(reg, g, es), i) && OnlyDeeds(es)
    ensures Run(reg, g, es).state.active[i].objectives[k].complete
    decreases left
  {
    var a := g.state.active[i];
    assert GoodActive(reg, a, g.state.completed);
    assert InRange(reg[a.quest].objectives[k], a.objectives[k]);
    if left == 0 {
      es := [];
    } else {
      var d := DoOne(reg, g, i, k);
      var h := Step(reg, g, Did(d));
      var rest := FinishObjective(reg, h, i, k, left - 1);
      es := [Did(d)] + rest;
      assert es[1..] == rest;
    }
  }

  /** One objective after the other, the whole quest is. */
  lemma {:induction false} FinishFrom(reg: Registry, g: Game, i: nat, k: nat) returns (es: seq<Event>)
    requires Fine(reg, g) && i < |g.state.active| && k <= |g.state.active[i].objectives|
    requires !Hopeless(reg[g.state.active[i].quest])
    requires forall j :: 0 <= j < k ==> g.state.active[i].objectives[j].complete
    ensures Progressed(reg, g, Run(reg, g, es), i) && IsComplete(Run(reg, g, es).state.active[i]) && OnlyDeeds(es)
    decreases |g.state.active[i].objectives| - k
  {
    var a := g.state.active[i];
    if k == |a.objectives| {
      es := [];
    } else {
      ActiveInRange(reg, g, i, k);
      var first := FinishObjective(reg, g, i, k, a.objectives[k].required - a.objectives[k].current);
      var h := Run(reg, g, first);
      UpKeepsDone(a, h.state.active[i], k);
      var rest := FinishFrom(reg, h, i, k + 1);
      es := first + rest;
      RunAppend(reg, g, first, rest);
      ProgressedTwice(reg, g, h, Run(reg, h, rest), i);
    }
  }

  lemma {:induction false} ActiveInRange(reg: Registry, g: Game, i: nat, k: nat)
    requires Sound(reg, g.state) && i < |g.state.active| && k < |g.state.active[i].objectives|
    ensures g.state.active[i].objectives[k].current <= g.state.active[i].objectives[k].required
  {
    var a := g.state.active[i];
    assert GoodActive(reg, a, g.state.completed);
    assert InRange(reg[a.quest].objectives[k], a.objectives[k]);
  }

  lemma {:induction false} UpKeepsDone(a: Active, b: Active, k: nat)
    requires Up(a, b) && k < |a.objectives| && b.objectives[k].complete
    requires forall j :: 0 <= j < k ==> a.objectives[j].complete
    ensures forall j :: 0 <= j < k + 1 ==> b.objectives[j].complete
  {}

  lemma {:induction false} ProgressedTwice(reg: Registry, f: Game, g: Game, h: Game, i: nat)
    requires Progressed(reg, f, g, i) && Progressed(reg, g, h, i)
    ensures Progressed(reg, f, h, i)
  {}

  /**
   The other half: in any sound state, an active quest that is not hopeless is completed by some deeds
   and one check, whatever else is active; what is still active then was active before.
   */
  lemma {:induction false} ActiveCanFinish(reg: Registry, g: Game, i: nat) returns (es: seq<Event>)
    requires Fine(reg, g) && i < |g.state.active| && !Hopeless(reg[g.state.active[i].quest])
    ensures Finished(reg, g, Run(reg, g, es + [Check]), i) && OnlyDeeds(es)
  {
    es := FinishFrom(reg, g, i, 0);
    var h := Run(reg, g, es);
    RunAppend(reg, g, es, [Check]);
    LastEvent(reg, h, Check);
    CheckHandsIn(reg, h, i);
    FinishedAfter(reg, g, h, Step(reg, h, Check), i);
  }

  /** Quest `i` on the list is completed, and whatever is still active was on the list at another place. */
  ghost predicate Finished(reg: Registry, g: Game, h: Game, i: nat)
    requires i < |g.state.active|
  {
    && Fine(reg, h) && h.state.maxActive == g.state.maxActive && |h.state.active| < |g.state.active|
    && g.state.active[i].quest in h.state.completed && g.state.completed <= h.state.completed
    && forall a :: a in h.state.active ==> Elsewhere(g, a.quest, i)
  }

  ghost predicate Elsewhere(g: Game, id: QuestId, i: nat) {
    exists j :: 0 <= j < |g.state.active| && j != i && g.state.active[j].quest == id
  }

  lemma {:induction false} FinishedAfter(reg: Registry, f: Game, g: Game, h: Game, i: nat)
    requires SameQuests(f, g) && i < |f.state.active| && Finished(reg, g, h, i)
    ensures Finished(reg, f, h, i)
  {
    forall a | a in h.state.active
      ensures Elsewhere(f, a.quest, i)
    {
      var j :| 0 <= j < |g.state.active| && j != i && g.state.active[j].quest == a.quest;
      assert f.state.active[j].quest == a.quest;
    }
  }

  lemma {:induction false} LastEvent(reg: Registry, g: Game, e: Event)
    ensures Run(reg, g, [e]) == Step(reg, g, e)
  {
    assert [e][1..] == [];
  }

  lemma {:induction false} CheckHandsIn(reg: Registry, g: Game, i: nat)
    requires Fine(reg, g) && i < |g.state.active| && IsComplete(g.state.active[i])
    ensures Finished(reg, g, Step(reg, g, Check), i)
  {
    StepKeeps(reg, g, Check);
    assert GoodActive(reg, g.state.active[i], g.state.completed);
    DoneHandedIn(reg, g.state.active, i);
    forall a | a in Kept(reg, g.state.active)
      ensures Elsewhere(g, a.quest, i)
    {
      KeptNotDone(reg, g.state.active, a);
      var j :| 0 <= j < |g.state.active| && g.state.active[j] == a;
      assert j != i && g.state.active[j].quest == a.quest;
    }
  }

  lemma {:induction false} KeptNotDone(reg: Registry, active: seq<Active>, a: Active)
    requires a in Kept(reg, active)
    ensures a in active && !Done(reg, a)
    decreases |active|
  {
    assert active == [active[0]] + active[1..];
    if a in Kept(reg, active[1..]) {
      KeptNotDone(reg, active[1..], a);
    }
  }

  lemma {:induction false} DoneHandedIn(reg: Registry, active: seq<Active>, i: nat)
    requires i < |active| && Done(reg, active[i])
    ensures active[i].quest in Backwards(DoneIds(reg, active)) && |Kept(reg, active)| < |active|
  {
    DoneListed(reg, active, i);
    var ids := DoneIds(reg, active);
    BackwardsSame(ids);
    assert active[i].quest in multiset(ids) && active[i].quest in multiset(Backwards(ids));
  }

  lemma {:induction false} DoneListed(reg: Registry, active: seq<Active>, i: nat)
    requires i < |active| && Done(reg, active[i])
    ensures active[i].quest in DoneIds(reg, active) && |Kept(reg, active)| < |active|
    decreases |active|
  {
    KeptIn(reg, active[1..]);
    if i > 0 {
      assert active[1..][i - 1] == active[i];
      DoneListed(reg, active[1..], i - 1);
    }
  }

  // ---------- Every open quest can be completed ----------

  ghost predicate Lost(reg: Registry, id: QuestId) { id in reg && Hopeless(reg[id]) }

  /** Only hopeless quests are active, and there is room for another. */
  ghost predicate Idle(reg: Registry, g: Game) {
    && Fine(reg, g) && |g.state.active| < g.state.maxActive
    && forall a :: a in g.state.active ==> Lost(reg, a.quest)
  }

  ghost predicate Later(g: Game, h: Game) {
    h.state.maxActive == g.state.maxActive && forall id :: id in g.state.completed ==> id in h.state.completed
  }

  lemma {:induction false} TakeAndFinish(reg: Registry, g: Game, id: QuestId) returns (es: seq<Event>)
    requires Idle(reg, g) && id in reg && !Hopeless(reg[id]) && id !in g.state.completed
    requires forall k :: 0 <= k < |reg[id].prerequisites| ==> reg[id].prerequisites[k] in g.state.completed
    ensures var h := Run(reg, g, es); Idle(reg, h) && Later(g, h) && id in h.state.completed
  {
    var take := Take(id, reg[id].level, 0);
    var n := |g.state.active|;
    Acceptable(reg, g, id);
    var h := Step(reg, g, take);
    assert h.state == g.state.(active := g.state.active + [Active(id, Begun(reg[id]), 0)]);
    StepKeeps(reg, g, take);
    var rest := ActiveCanFinish(reg, h, n);
    es := [take] + (rest + [Check]);
    assert es[1..] == rest + [Check];
    StillIdle(reg, g, h, Run(reg, h, rest + [Check]));
  }

  lemma {:induction false} Acceptable(reg: Registry, g: Game, id: QuestId)
    requires Idle(reg, g) && id in reg && !Hopeless(reg[id]) && id !in g.state.completed
    requires forall k :: 0 <= k < |reg[id].prerequisites| ==> reg[id].prerequisites[k] in g.state.completed
    ensures AcceptError(reg, g.state, id, reg[id].level).None?
  {
    NoneMissing(reg[id].prerequisites, g.state.completed);
    forall i | 0 <= i < |g.state.active|
      ensures g.state.active[i].quest != id
    {
      assert Lost(reg, g.state.active[i].quest);
    }
  }

  /** What was taken last is finished, so what is left was active before. */
  lemma {:induction false} StillIdle(reg: Registry, g: Game, h: Game, end: Game)
    requires Idle(reg, g) && h.state.maxActive == g.state.maxActive
    requires |h.state.active| == |g.state.active| + 1 && h.state.active[..|g.state.active|] == g.state.active
    requires Finished(reg, h, end, |g.state.active|)
    ensures Idle(reg, end)
  {
    var n := |g.state.active|;
    forall a | a in end.state.active
      ensures Lost(reg, a.quest)
    {
      var j :| 0 <= j < |h.state.active| && j != n && h.state.active[j].quest == a.quest;
      assert h.state.active[j] == h.state.active[..n][j] && h.state.active[j] in g.state.active;
    }
  }

  lemma {:induction false} CompleteAll(reg: Registry, g: Game, ps: seq<QuestId>, levels: nat) returns (es: seq<Event>)
    requires Idle(reg, g) && PrerequisitesOpen(reg, ps, levels)
    ensures var h := Run(reg, g, es); Idle(reg, h) && Later(g, h) && forall k :: 0 <= k < |ps| ==>
        ps[k] in h.state.completed
    decreases levels, |ps| + 1
  {
    if ps == [] {
      es := [];
    } else {
      assert OpenIn(reg, ps[0], levels);
      var first := CompleteOne(reg, g, ps[0], levels);
      var h := Run(reg, g, first);
      forall k | 0 <= k < |ps[1..]|
        ensures OpenIn(reg, ps[1..][k], levels)
      {
        assert ps[1..][k] == ps[k + 1];
      }
      var rest := CompleteAll(reg, h, ps[1..], levels);
      es := first + rest;
      RunAppend(reg, g, first, rest);
      var end := Run(reg, g, es);
      forall k | 0 <= k < |ps|
        ensures ps[k] in end.state.completed
      {
        assert k > 0 ==> ps[1..][k - 1] == ps[k];
      }
    }
  }

  lemma {:induction false} CompleteOne(reg: Registry, g: Game, id: QuestId, levels: nat) returns (es: seq<Event>)
    requires Idle(reg, g) && OpenIn(reg, id, levels)
    ensures var h := Run(reg, g, es); Idle(reg, h) && Later(g, h) && id in h.state.completed
    decreases levels, 0
  {
    if id in g.state.completed {
      es := [];
    } else {
      var first := CompleteAll(reg, g, reg[id].prerequisites, levels - 1);
      var h := Run(reg, g, first);
      if id in h.state.completed {
        es := first;
      } else {
        var rest := TakeAndFinish(reg, h, id);
        es := first + rest;
        RunAppend(reg, g, first, rest);
      }
    }
  }

  ghost predicate CanComplete(reg: Registry, maxActive: nat, id: QuestId) {
    exists es :: id in Run(reg, NewPlayer(maxActive), es).state.completed
  }

  /** A new player with room for a quest can complete a quest on some run exactly when the quest is open. */
  lemma {:induction false} CompletableExactly(reg: Registry, maxActive: nat, id: QuestId)
    requires Positive(reg) && maxActive > 0
    ensures CanComplete(reg, maxActive, id) <==> Open(reg, id)
  {
    if CanComplete(reg, maxActive, id) {
      var es :| id in Run(reg, NewPlayer(maxActive), es).state.completed;
      OnlyOpenOnEveryRun(reg, maxActive, es, id);
    }
    if Open(reg, id) {
      var levels: nat :| OpenIn(reg, id, levels);
      var es := CompleteOne(reg, NewPlayer(maxActive), id, levels);
      assert id in Run(reg, NewPlayer(maxActive), es).state.completed;
    }
  }
}

/** What holds of a player's quests on every run: prerequisites, limits, progress, and one reward per acceptance. */
module QuestRuns {
  import opened Wrappers
  import opened Sequences
  import opened Quests

  function Ids(active: seq<Active>): seq<QuestId> {
    if active == [] then [] else [active[0].quest] + Ids(active[1..])
  }

  /** What has been accepted and what has been rewarded so far. */
  datatype Ledger = Ledger(accepted: multiset<QuestId>, rewarded: multiset<QuestId>)

  datatype Event = Take(id: QuestId, level: nat, tick: nat) | Did(deed: Deed) | Check

  datatype Game = Game(state: State, ledger: Ledger)

  /** Nothing happens to malformed progress; on every run from a new player there is none. */
  function Step(reg: Registry, g: Game, e: Event): Game {
    var s := g.state;
    match e
    case Take(id, level, tick) =>
      Game(Accept(reg, s, id, level, tick),
           if AcceptError(reg, s, id, level).None? then g.ledger.(accepted := g.ledger.accepted + multiset{id})
               else g.ledger)
    case Did(d) => if AllShaped(reg, s.active) then Game(s.(active := AllAdvanced(reg, s.active, d)), g.ledger) else g
    case Check =>
      Game(HandIn(reg, s), g.ledger.(rewarded := g.ledger.rewarded + multiset(DoneIds(reg, s.active))))
  }

  predicate AllShaped(reg: Registry, active: seq<Active>)
    ensures AllShaped(reg, active) <==> Shaped(reg, active)
  {
    forall i :: 0 <= i < |active| ==> ShapedAt(reg, active[i])
  }

  function Run(reg: Registry, g: Game, es: seq<Event>): Game
    decreases |es|
  {
    if es == [] then g else Run(reg, Step(reg, g, es[0]), es[1..])
  }

  function NewPlayer(maxActive: nat): Game {
    Game(State([], [], maxActive), Ledger(multiset{}, multiset{}))
  }

  // ---------- The invariant ----------

  /** Counters are 32-bit and something is required of every objective. */
  ghost predicate Positive(reg: Registry) {
    forall id :: id in reg ==> PositiveQuest(reg[id])
  }

  ghost predicate PositiveQuest(q: Quest) {
    forall k :: 0 <= k < |q.objectives| ==> 1 <= Required(q.objectives[k]) < 0x1_0000_0000
  }

  /** No deed counts towards these. */
  predicate Unreachable(o: Objective) { o.Explore? || o.Deliver? || o.TalkTo? }

  /** Progress never passes what is required, is complete exactly at it, and stays at nothing where no deed counts. */
  predicate InRange(o: Objective, p: Progress) {
    && p.required == Required(o) && p.current <= p.required && (p.complete <==> p.current == p.required)
    && (Unreachable(o) ==> p.current == 0)
  }

  ghost predicate AllInRange(os: seq<Objective>, ps: seq<Progress>) {
    |ps| == |os| && forall k :: 0 <= k < |os| ==> InRange(os[k], ps[k])
  }

  ghost predicate Unlocked(reg: Registry, id: QuestId, completed: seq<QuestId>) {
    id in reg && forall k :: 0 <= k < |reg[id].prerequisites| ==> reg[id].prerequisites[k] in completed
  }

  ghost predicate GoodActive(reg: Registry, a: Active, completed: seq<QuestId>) {
    Unlocked(reg, a.quest, completed) && AllInRange(reg[a.quest].objectives, a.objectives)
  }

  ghost predicate Sound(reg: Registry, s: State) {
    && |s.active| <= s.maxActive
    && (forall i :: 0 <= i < |s.active| ==> GoodActive(reg, s.active[i], s.completed))
    && (forall id :: id in s.completed ==> Unlocked(reg, id, s.completed))
  }

  /**
   Every acceptance is either rewarded or still active; at most one of a kind is active, and one in all if not
   repeatable.
   */
  ghost predicate Balanced(reg: Registry, g: Game) {
    && g.ledger.accepted == g.ledger.rewarded + multiset(Ids(g.state.active))
    && multiset(g.state.completed) == g.ledger.rewarded
    && (forall id :: multiset(Ids(g.state.active))[id] <= 1)
    && forall id :: id in reg && !reg[id].repeatable ==> g.ledger.accepted[id] <= 1
  }

  // ---------- Lists ----------

  lemma {:induction false} IdsAppend(a: seq<Active>, b: seq<Active>)
    ensures Ids(a + b) == Ids(a) + Ids(b)
    decreases |a|
  {
    if a == [] {
      assert a + b == b;
    } else {
      assert (a + b)[1..] == a[1..] + b;
      IdsAppend(a[1..], b);
      Reassociate([a[0].quest], Ids(a[1..]), Ids(b));
    }
  }

  lemma {:induction false} ActiveIds(s: State, active: seq<Active>, id: QuestId)
    ensures id in Ids(active) <==> exists i :: 0 <= i < |active| && active[i].quest == id
  {
    if active != [] {
      ActiveIds(s, active[1..], id);
      assert active == [active[0]] + active[1..];
      if i :| 0 <= i < |active| && active[i].quest == id && i > 0 {
        assert active[1..][i - 1].quest == id;
      }
      if i :| 0 <= i < |active[1..]| && active[1..][i].quest == id {
        assert active[i + 1].quest == id;
      }
    }
  }

  lemma {:induction false} SameIds(a: seq<Active>, b: seq<Active>)
    requires |a| == |b| && forall i :: 0 <= i < |a| ==> a[i].quest == b[i].quest
    ensures Ids(a) == Ids(b)
  {
    if a != [] {
      forall i | 0 <= i < |a[1..]|
        ensures a[1..][i].quest == b[1..][i].quest
      {
        assert a[i + 1].quest == b[i + 1].quest;
      }
      SameIds(a[1..], b[1..]);
    }
  }

  /** Handing in splits the list: nothing is lost and nothing is invented. */
  lemma {:induction false} HandInSplits(reg: Registry, active: seq<Active>)
    ensures multiset(Ids(active)) == multiset(Ids(Kept(reg, active))) + multiset(DoneIds(reg, active))
  {
    if active != [] {
      HandInSplits(reg, active[1..]);
      SplitFirst(reg, active);
    }
  }

  lemma {:induction false} SplitFirst(reg: Registry, active: seq<Active>)
    requires active != []
    ensures multiset(Ids(active)) == multiset{active[0].quest} + multiset(Ids(active[1..]))
    ensures Done(reg, active[0]) ==>
      multiset(DoneIds(reg, active)) == multiset{active[0].quest} + multiset(DoneIds(reg, active[1..]))
    ensures !Done(reg, active[0]) ==>
      multiset(Ids(Kept(reg, active))) == multiset{active[0].quest} + multiset(Ids(Kept(reg, active[1..])))
  {
    if !Done(reg, active[0]) {
      assert Kept(reg, active)[1..] == Kept(reg, active[1..]);
    }
  }

  lemma {:induction false} KeptIn(reg: Registry, active: seq<Active>)
    ensures |Kept(reg, active)| <= |active| && forall a :: a in Kept(reg, active) ==> a in active
  {
    if active != [] {
      KeptIn(reg, active[1..]);
      assert active == [active[0]] + active[1..];
    }
  }

  /** Some finished quest on the list is this one. */
  ghost predicate FinishedOn(reg: Registry, active: seq<Active>, id: QuestId) {
    exists a :: a in active && a.quest == id && Done(reg, a)
  }

  lemma {:induction false} DoneOn(reg: Registry, active: seq<Active>, id: QuestId)
    requires id in DoneIds(reg, active)
    ensures FinishedOn(reg, active, id)
  {
    assert active == [active[0]] + active[1..];
    if Done(reg, active[0]) && active[0].quest == id {
      assert active[0] in active;
    } else {
      DoneOn(reg, active[1..], id);
      var a :| a in active[1..] && a.quest == id && Done(reg, a);
      assert a in active;
    }
  }

  /** Whatever was just handed in was on the list and finished. */
  lemma {:induction false} HandedIn(reg: Registry, active: seq<Active>, id: QuestId)
    requires id in Backwards(DoneIds(reg, active))
    ensures FinishedOn(reg, active, id)
  {
    var ids := DoneIds(reg, active);
    BackwardsSame(ids);
    assert id in multiset(Backwards(ids)) && id in multiset(ids);
    DoneOn(reg, active, id);
  }

  lemma {:induction false} BackwardsSame<T>(s: seq<T>)
    ensures multiset(Backwards(s)) == multiset(s)
  {
    if s != [] {
      BackwardsSame(s[1..]);
      assert s == [s[0]] + s[1..];
    }
  }

  // ---------- Accepting ----------

  lemma {:induction false} NoneMissing(prerequisites: seq<QuestId>, completed: seq<QuestId>)
    ensures Missing(prerequisites, completed) == [] <==> forall k :: 0 <= k < |prerequisites| ==>
        prerequisites[k] in completed
  {
    if prerequisites != [] {
      NoneMissing(prerequisites[1..], completed);
      assert prerequisites == [prerequisites[0]] + prerequisites[1..];
    }
  }

  lemma {:induction false} TakeKeepsSound(reg: Registry, s: State, id: QuestId, level: nat, tick: nat)
    requires Sound(reg, s) && Positive(reg)
    ensures Sound(reg, Accept(reg, s, id, level, tick))
  {
    if AcceptError(reg, s, id, level).None? {
      NoneMissing(reg[id].prerequisites, s.completed);
      assert PositiveQuest(reg[id]);
      assert GoodActive(reg, Active(id, Begun(reg[id]), tick), s.completed);
    }
  }

  lemma {:induction false} TakeKeepsBalanced(reg: Registry, g: Game, id: QuestId, level: nat, tick: nat)
    requires Balanced(reg, g)
    ensures Balanced(reg, Step(reg, g, Take(id, level, tick)))
  {
    var s := g.state;
    if AcceptError(reg, s, id, level).None? {
      var a := Active(id, Begun(reg[id]), tick);
      IdsAppend(s.active, [a]);
      assert Ids([a]) == [id] by { assert [a][1..] == []; }
      ActiveIds(s, s.active, id);
      assert id in multiset(s.completed) <==> id in s.completed;
    }
  }

  // ---------- Progress ----------

  lemma {:induction false} BumpedInRange(o: Objective, p: Progress, d: Deed)
    requires InRange(o, p) && Moves(o, p, d) && 1 <= Required(o) < 0x1_0000_0000
    ensures InRange(o, Bumped(p, d))
  {}

  lemma {:induction false} AdvanceInRange(id: QuestId, os: seq<Objective>, ps: seq<Progress>, d: Deed, i: nat)
    requires AllInRange(os, ps) && i <= |os| && forall k :: 0 <= k < |os| ==> 1 <= Required(os[k]) < 0x1_0000_0000
    ensures AllInRange(os, Advance(id, os, ps, d, i).objectives)
    decreases |os| - i
  {
    if i < |os| {
      if Moves(os[i], ps[i], d) {
        BumpedInRange(os[i], ps[i], d);
        AdvanceInRange(id, os, ps[i := Bumped(ps[i], d)], d, i + 1);
      } else {
        AdvanceInRange(id, os, ps, d, i + 1);
      }
    }
  }

  lemma {:induction false} DidKeepsSound(reg: Registry, s: State, d: Deed)
    requires Sound(reg, s) && Positive(reg)
    ensures Shaped(reg, s.active) && Sound(reg, s.(active := AllAdvanced(reg, s.active, d)))
  {
    forall i | 0 <= i < |s.active|
      ensures ShapedAt(reg, s.active[i]) && GoodActive(reg, Advanced(reg, s.active[i], d), s.completed)
    {
      var a := s.active[i];
      assert GoodActive(reg, a, s.completed) && PositiveQuest(reg[a.quest]);
      AdvanceInRange(a.quest, reg[a.quest].objectives, a.objectives, d, 0);
    }
  }

  lemma {:induction false} DidKeepsBalanced(reg: Registry, g: Game, d: Deed)
    requires Balanced(reg, g)
    ensures Balanced(reg, Step(reg, g, Did(d)))
  {
    if AllShaped(reg, g.state.active) {
      SameIds(g.state.active, AllAdvanced(reg, g.state.active, d));
    }
  }

  // ---------- Handing in ----------

  lemma {:induction false} InLonger(completed: seq<QuestId>, more: seq<QuestId>, reg: Registry, id: QuestId)
    requires Unlocked(reg, id, completed)
    ensures Unlocked(reg, id, completed + more)
  {}

  lemma {:induction false} CheckKeepsSound(reg: Registry, s: State)
    requires Sound(reg, s)
    ensures Sound(reg, HandIn(reg, s))
  {
    var more := Backwards(DoneIds(reg, s.active));
    var completed := s.completed + more;
    var kept := Kept(reg, s.active);
    KeptIn(reg, s.active);
    forall i | 0 <= i < |kept|
      ensures GoodActive(reg, kept[i], completed)
    {
      assert kept[i] in s.active;
      InLonger(s.completed, more, reg, kept[i].quest);
    }
    forall id | id in completed
      ensures Unlocked(reg, id, completed)
    {
      if id !in s.completed {
        assert id in more;
        HandedIn(reg, s.active, id);
        var a :| a in s.active && a.quest == id && Done(reg, a);
        assert GoodActive(reg, a, s.completed);
      }
      InLonger(s.completed, more, reg, id);
    }
  }

  lemma {:induction false} CheckKeepsBalanced(reg: Registry, g: Game)
    requires Balanced(reg, g)
    ensures Balanced(reg, Step(reg, g, Check))
  {
    var s := g.state;
    var ids := DoneIds(reg, s.active);
    var more := Backwards(ids);
    HandInSplits(reg, s.active);
    BackwardsSame(ids);
    assert multiset(s.completed + more) == multiset(s.completed) + multiset(more);
    var kept := Kept(reg, s.active);
    assert forall id :: multiset(Ids(kept))[id] <= multiset(Ids(s.active))[id];
  }

  // ---------- Runs ----------

  lemma {:induction false} StepKeeps(reg: Registry, g: Game, e: Event)
    requires Sound(reg, g.state) && Balanced(reg, g) && Positive(reg)
    ensures Sound(reg, Step(reg, g, e).state) && Balanced(reg, Step(reg, g, e))
  {
    if e.Take? {
      TakeKeepsSound(reg, g.state, e.id, e.level, e.tick);
      TakeKeepsBalanced(reg, g, e.id, e.level, e.tick);
    } else if e.Did? {
      DidKeepsSound(reg, g.state, e.deed);
      DidKeepsBalanced(reg, g, e.deed);
    } else {
      CheckKeepsSound(reg, g.state);
      CheckKeepsBalanced(reg, g);
    }
  }

  lemma {:induction false} RunKeeps(reg: Registry, g: Game, es: seq<Event>)
    requires Sound(reg, g.state) && Balanced(reg, g) && Positive(reg)
    ensures Sound(reg, Run(reg, g, es).state) && Balanced(reg, Run(reg, g, es))
    decreases |es|
  {
    if es != [] {
      StepKeeps(reg, g, es[0]);
      RunKeeps(reg, Step(reg, g, es[0]), es[1..]);
    }
  }

  /**
   On every run of a new player, whatever is active or completed has all its prerequisites completed; the
   active quests are within the limit and all different; acceptances less rewards are one for an active
   quest and none for another; and what is not repeatable is accepted, and so completed, at most once.
   */
  lemma {:induction false} QuestsOnEveryRun(reg: Registry, maxActive: nat, es: seq<Event>, id: QuestId)
    requires Positive(reg)
    ensures var g := Run(reg, NewPlayer(maxActive), es);
      && |g.state.active| <= maxActive && multiset(Ids(g.state.active))[id] <= 1
      && (IsActive(g.state, id) || id in g.state.completed ==> Unlocked(reg, id, g.state.completed))
      && g.ledger.accepted[id] == g.ledger.rewarded[id] + (if IsActive(g.state, id) then 1 else 0)
      && multiset(g.state.completed)[id] == g.ledger.rewarded[id]
      && (id in reg && !reg[id].repeatable ==> multiset(g.state.completed)[id] <= 1)
  {
    RunKeeps(reg, NewPlayer(maxActive), es);
    MaxStays(reg, NewPlayer(maxActive), es);
    var g := Run(reg, NewPlayer(maxActive), es);
    ActiveIds(g.state, g.state.active, id);
    assert id in Ids(g.state.active) <==> id in multiset(Ids(g.state.active));
    if i :| 0 <= i < |g.state.active| && g.state.active[i].quest == id {
      assert GoodActive(reg, g.state.active[i], g.state.completed);
    }
  }

  lemma {:induction false} MaxStays(reg: Registry, g: Game, es: seq<Event>)
    ensures Run(reg, g, es).state.maxActive == g.state.maxActive
    decreases |es|
  {
    if es != [] { MaxStays(reg, Step(reg, g, es[0]), es[1..]); }
  }

  /** On every run progress stays within what is required, and a quest is complete exactly when all of it is done. */
  lemma {:induction false} ProgressOnEveryRun(reg: Registry, maxActive: nat, es: seq<Event>, i: nat, k: nat)
    requires Positive(reg)
    requires var s := Run(reg, NewPlayer(maxActive), es).state; i < |s.active| && k < |s.active[i].objectives|
    ensures var a := Run(reg, NewPlayer(maxActive), es).state.active[i];
      && a.quest in reg && |a.objectives| == |reg[a.quest].objectives|
          && InRange(reg[a.quest].objectives[k], a.objectives[k])
  {
    RunKeeps(reg, NewPlayer(maxActive), es);
    var s := Run(reg, NewPlayer(maxActive), es).state;
    assert GoodActive(reg, s.active[i], s.completed);
  }

  /** Without a positive count a kill goes past what is required. */
  lemma {:induction false} KillOvershootsExactly(p: Progress, npc: nat)
    requires !p.complete && p.current <= p.required < 0x1_0000_0000 && (p.current == p.required ==> p.required == 0)
    ensures Bumped(p, Killed(npc)).current > p.required <==> p.required == 0
  {}

  /** A quest is offered exactly when accepting it can fail for nothing but a full list. */
  lemma {:induction false} OfferedExactly(reg: Registry, s: State, id: QuestId, level: nat)
    requires id in reg
    ensures Offered(reg[id], id, level, s.completed, Ids(s.active)) <==>
      AcceptError(reg, s, id, level) in {None, Some(TooManyActive)}
  {
    NoneMissing(reg[id].prerequisites, s.completed);
    ActiveIds(s, s.active, id);
  }

  /** The filter of `available_quests`. */
  predicate Offered(q: Quest, id: QuestId, level: nat, completed: seq<QuestId>, active: seq<QuestId>) {
    q.level <= level && id !in active && (q.repeatable || id !in completed)
    && forall k :: 0 <= k < |q.prerequisites| ==> q.prerequisites[k] in completed
  }
}

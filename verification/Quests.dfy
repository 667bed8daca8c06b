/** Quests of one player: accepting, making progress, and handing in whatever is finished. */
module Quests {
  import opened Wrappers
  import opened Sequences

  type QuestId = nat

  datatype Objective =
    | Kill(npc: nat, count: nat)
    | Gather(item: nat, count: nat)
    | Explore
    | Deliver(item: nat, count: nat, npc: nat)
    | TalkTo(npc: nat)
    | Craft(item: nat, count: nat)

  function Required(o: Objective): nat {
    if o.Explore? || o.TalkTo? then 1 else o.count
  }

  datatype Quest = Quest(objectives: seq<Objective>, level: nat, prerequisites: seq<QuestId>, repeatable: bool,
                         reward: nat)

  type Registry = map<QuestId, Quest>

  datatype Progress = Progress(current: nat, required: nat, complete: bool)

  datatype Active = Active(quest: QuestId, objectives: seq<Progress>, tick: nat)

  datatype State = State(active: seq<Active>, completed: seq<QuestId>, maxActive: nat)

  datatype QuestError =
    | NotFound
    | LevelTooLow(required: nat, current: nat)
    | PrerequisitesNotMet(missing: seq<QuestId>)
    | AlreadyActive
    | AlreadyCompleted
    | TooManyActive

  // ---------- Accepting ----------

  predicate IsActive(s: State, id: QuestId) {
    exists i :: 0 <= i < |s.active| && s.active[i].quest == id
  }

  function Missing(prerequisites: seq<QuestId>, completed: seq<QuestId>): seq<QuestId> {
    if prerequisites == [] then []
    else if prerequisites[0] in completed then Missing(prerequisites[1..], completed)
    else [prerequisites[0]] + Missing(prerequisites[1..], completed)
  }

  function AcceptError(reg: Registry, s: State, id: QuestId, level: nat): Option<QuestError> {
    if id !in reg then Some(NotFound)
    else
      var q := reg[id];
      if level < q.level then Some(LevelTooLow(q.level, level))
      else if Missing(q.prerequisites, s.completed) != [] then
        Some(PrerequisitesNotMet(Missing(q.prerequisites, s.completed)))
      else if IsActive(s, id) then Some(AlreadyActive)
      else if !q.repeatable && id in s.completed then Some(AlreadyCompleted)
      else if |s.active| >= s.maxActive then Some(TooManyActive)
      else None
  }

  function Begun(q: Quest): (r: seq<Progress>)
    ensures |r| == |q.objectives|
    ensures forall i :: 0 <= i < |r| ==> r[i] == Progress(0, Required(q.objectives[i]), false)
  {
    seq(|q.objectives|, i requires 0 <= i < |q.objectives| => Progress(0, Required(q.objectives[i]), false))
  }

  function Accept(reg: Registry, s: State, id: QuestId, level: nat, tick: nat): State {
    if AcceptError(reg, s, id, level).Some? then s
    else s.(active := s.active + [Active(id, Begun(reg[id]), tick)])
  }

  // ---------- Progress ----------

  datatype Deed = Killed(npc: nat) | Gathered(item: nat, quantity: nat) | Crafted(item: nat, quantity: nat)

  predicate Counts(o: Objective, d: Deed) {
    match d
    case Killed(npc) => o.Kill? && o.npc == npc
    case Gathered(item, _) => o.Gather? && o.item == item
    case Crafted(item, _) => o.Craft? && o.item == item
  }

  /** Counters are 32-bit and wrap around. */
  function Plus32(a: nat, b: nat): nat { (a + b) % 0x1_0000_0000 }

  /** A kill adds one and is not capped; gathering and crafting stop at what is required. */
  function Bumped(p: Progress, d: Deed): Progress {
    var current := Plus32(p.current, if d.Killed? then 1 else d.quantity);
    if current < p.required then p.(current := current)
    else Progress(if d.Killed? then current else p.required, p.required, true)
  }

  predicate Moves(o: Objective, p: Progress, d: Deed) { Counts(o, d) && !p.complete }

  datatype Report = Report(quest: QuestId, objective: nat, current: nat, required: nat)

  datatype Round = Round(objectives: seq<Progress>, reports: seq<Report>)

  /** One quest's objectives from the `i`-th on. */
  function Advance(id: QuestId, os: seq<Objective>, ps: seq<Progress>, d: Deed, i: nat): Round
    requires i <= |os| <= |ps|
    decreases |os| - i
  {
    if i == |os| then Round(ps, [])
    else if Moves(os[i], ps[i], d) then
      var p := Bumped(ps[i], d);
      var rest := Advance(id, os, ps[i := p], d, i + 1);
      Round(rest.objectives, [Report(id, i, p.current, p.required)] + rest.reports)
    else Advance(id, os, ps, d, i + 1)
  }

  /** Every active quest has a progress entry for each of its objectives. */
  ghost predicate Shaped(reg: Registry, active: seq<Active>) {
    forall i :: 0 <= i < |active| ==> ShapedAt(reg, active[i])
  }

  predicate ShapedAt(reg: Registry, a: Active) {
    a.quest in reg ==> |reg[a.quest].objectives| <= |a.objectives|
  }

  function Advanced(reg: Registry, a: Active, d: Deed): Active
    requires ShapedAt(reg, a)
  {
    if a.quest in reg then a.(objectives := Advance(a.quest, reg[a.quest].objectives, a.objectives, d, 0).objectives)
        else a
  }

  function ReportsOf(reg: Registry, a: Active, d: Deed): seq<Report>
    requires ShapedAt(reg, a)
  {
    if a.quest in reg then Advance(a.quest, reg[a.quest].objectives, a.objectives, d, 0).reports else []
  }

  function AllAdvanced(reg: Registry, active: seq<Active>, d: Deed): (r: seq<Active>)
    requires Shaped(reg, active)
    ensures |r| == |active| && forall i :: 0 <= i < |r| ==> r[i] == Advanced(reg, active[i], d)
  {
    seq(|active|, i requires 0 <= i < |active| => Advanced(reg, active[i], d))
  }

  function AllReports(reg: Registry, active: seq<Active>, d: Deed): seq<Report>
    requires Shaped(reg, active)
  {
    if active == [] then [] else ReportsOf(reg, active[0], d) + AllReports(reg, active[1..], d)
  }

  // ---------- Handing in ----------

  predicate IsComplete(a: Active) {
    forall i :: 0 <= i < |a.objectives| ==> a.objectives[i].complete
  }

  predicate Done(reg: Registry, a: Active) { IsComplete(a) && a.quest in reg }

  function Kept(reg: Registry, active: seq<Active>): seq<Active> {
    if active == [] then [] else if Done(reg, active[0]) then Kept(reg, active[1..])
        else [active[0]] + Kept(reg, active[1..])
  }

  function DoneIds(reg: Registry, active: seq<Active>): seq<QuestId> {
    if active == [] then []
    else if Done(reg, active[0]) then [active[0].quest] + DoneIds(reg, active[1..])
    else DoneIds(reg, active[1..])
  }

  function Backwards<T>(s: seq<T>): seq<T> {
    if s == [] then [] else Backwards(s[1..]) + [s[0]]
  }

  datatype Reward = Reward(quest: QuestId, reward: nat)

  function Rewards(reg: Registry, ids: seq<QuestId>): (r: seq<Reward>)
    requires forall i :: 0 <= i < |ids| ==> ids[i] in reg
    ensures |r| == |ids| && forall i :: 0 <= i < |ids| ==> r[i] == Reward(ids[i], reg[ids[i]].reward)
  {
    seq(|ids|, i requires 0 <= i < |ids| => Reward(ids[i], reg[ids[i]].reward))
  }

  /** The finished quests leave the list; they are recorded last one first. */
  function HandIn(reg: Registry, s: State): State {
    s.(active := Kept(reg, s.active), completed := s.completed + Backwards(DoneIds(reg, s.active)))
  }

  // ---------- The objects ----------

  class PlayerQuestState {
    var active: seq<Active>
    var completed: seq<QuestId>
    var maxActive: nat

    function View(): State
      reads this
    {
      State(active, completed, maxActive)
    }

    constructor ()
      ensures View() == State([], [], 5)
    {
      active, completed, maxActive := [], [], 5;
    }
  }

  class QuestRegistry {
    var quests: Registry

    constructor ()
      ensures quests == map[]
    {
      quests := map[];
    }

    method Register(id: QuestId, q: Quest)
      modifies this
      ensures quests == old(quests)[id := q]
    {
      quests := quests[id := q];
    }

    method AcceptQuest(id: QuestId, level: nat, state: PlayerQuestState, tick: nat) returns (error: Option<QuestError>)
      modifies state
      ensures error == AcceptError(quests, old(state.View()), id, level)
      ensures state.View() == Accept(quests, old(state.View()), id, level, tick)
    {
      if id !in quests {
        return Some(NotFound);
      }
      var q := quests[id];
      if level < q.level {
        return Some(LevelTooLow(q.level, level));
      }
      var missing := Missing(q.prerequisites, state.completed);
      if missing != [] {
        return Some(PrerequisitesNotMet(missing));
      }
      if IsActive(state.View(), id) {
        return Some(AlreadyActive);
      }
      if !q.repeatable && id in state.completed {
        return Some(AlreadyCompleted);
      }
      if |state.active| >= state.maxActive {
        return Some(TooManyActive);
      }
      state.active := state.active + [Active(id, Begun(q), tick)];
      error := None;
    }

    /** The common loop of `on_kill`, `on_gather` and `on_craft`. */
    method OnDeed(d: Deed, state: PlayerQuestState) returns (reports: seq<Report>)
      requires Shaped(quests, state.active)
      modifies state
      ensures state.View() == old(state.View()).(active := AllAdvanced(quests, old(state.active), d))
      ensures reports == AllReports(quests, old(state.active), d)
    {
      state.active, reports := AdvanceEach(quests, state.active, d);
    }

    method CheckCompletions(state: PlayerQuestState) returns (results: seq<Reward>)
      modifies state
      ensures state.View() == HandIn(quests, old(state.View()))
      ensures InRegistry(quests, DoneIds(quests, old(state.active)))
           && results == Rewards(quests, DoneIds(quests, old(state.active)))
    {
      var indices: seq<nat>;
      indices, results := Finished(quests, state.active);
      state.active, state.completed := RemoveAt(quests, state.active, state.completed, indices);
    }
  }

  method AdvanceEach(reg: Registry, before: seq<Active>, d: Deed) returns (active: seq<Active>, reports: seq<Report>)
    requires Shaped(reg, before)
    ensures active == AllAdvanced(reg, before, d)
    ensures reports == AllReports(reg, before, d)
  {
    active, reports := before, [];
    assert before[0..] == before;
    var i := 0;
    while i < |active|
      invariant 0 <= i <= |active| == |before|
      invariant forall j :: 0 <= j < i ==> active[j] == Advanced(reg, before[j], d)
      invariant forall j :: i <= j < |before| ==> active[j] == before[j]
      invariant reports + AllReports(reg, before[i..], d) == AllReports(reg, before, d)
    {
      var a := active[i];
      assert a == before[i] && ShapedAt(reg, a);
      assert before[i..][0] == a && before[i..][1..] == before[i + 1..];
      var round := Round(a.objectives, []);
      if a.quest in reg {
        round := AdvanceOne(a.quest, reg[a.quest].objectives, a.objectives, d);
      }
      Reassociate(reports, ReportsOf(reg, a, d), AllReports(reg, before[i + 1..], d));
      active := active[i := a.(objectives := round.objectives)];
      reports := reports + round.reports;
      i := i + 1;
    }
  }

  method AdvanceOne(id: QuestId, os: seq<Objective>, start: seq<Progress>, d: Deed) returns (round: Round)
    requires |os| <= |start|
    ensures round == Advance(id, os, start, d, 0)
  {
    var ps, reports := start, [];
    var i := 0;
    ghost var whole := Advance(id, os, start, d, 0);
    ghost var rest := whole;
    while i < |os|
      invariant 0 <= i <= |os| <= |ps|
      invariant rest == Advance(id, os, ps, d, i)
      invariant rest.objectives == whole.objectives && reports + rest.reports == whole.reports
    {
      if Moves(os[i], ps[i], d) {
        var p := Bumped(ps[i], d);
        assert rest.reports == [Report(id, i, p.current, p.required)] + Advance(id, os, ps[i := p], d, i + 1).reports;
        ps := ps[i := p];
        reports := reports + [Report(id, i, p.current, p.required)];
      }
      i := i + 1;
      rest := Advance(id, os, ps, d, i);
    }
    round := Round(ps, reports);
  }

  // ---------- Removing by index, from the back ----------

  ghost predicate InRegistry(reg: Registry, ids: seq<QuestId>) {
    forall i :: 0 <= i < |ids| ==> ids[i] in reg
  }

  /** `indices` are exactly the positions of finished quests, ascending. */
  ghost predicate Positions(reg: Registry, active: seq<Active>, indices: seq<nat>, to: nat) {
    && (forall j :: 0 <= j < |indices| ==> indices[j] < to && indices[j] < |active| && Done(reg, active[indices[j]]))
    && (forall j, k :: 0 <= j < k < |indices| ==> indices[j] < indices[k])
    && (forall i :: 0 <= i < |active| && i < to && Done(reg, active[i]) ==> i in indices)
  }

  method Finished(reg: Registry, active: seq<Active>) returns (indices: seq<nat>, results: seq<Reward>)
    ensures Positions(reg, active, indices, |active|)
    ensures InRegistry(reg, DoneIds(reg, active)) && results == Rewards(reg, DoneIds(reg, active))
  {
    indices, results := [], [];
    ghost var ids: seq<QuestId> := [];
    assert active[0..] == active;
    var i := 0;
    while i < |active|
      invariant 0 <= i <= |active|
      invariant Positions(reg, active, indices, i)
      invariant InRegistry(reg, ids) && results == Rewards(reg, ids)
      invariant ids + DoneIds(reg, active[i..]) == DoneIds(reg, active)
    {
      var a := active[i];
      assert active[i..][0] == a && active[i..][1..] == active[i + 1..];
      if Done(reg, a) {
        PositionsGrow(reg, active, indices, i);
        MoveFirst(ids, DoneIds(reg, active[i..]));
        indices := indices + [i];
        results := results + [Reward(a.quest, reg[a.quest].reward)];
        ids := ids + [a.quest];
      }
      i := i + 1;
    }
    assert active[i..] == [];
  }

  lemma {:induction false} PositionsGrow(reg: Registry, active: seq<Active>, indices: seq<nat>, i: nat)
    requires Positions(reg, active, indices, i) && i < |active| && Done(reg, active[i])
    ensures Positions(reg, active, indices + [i], i + 1)
  {
    var longer := indices + [i];
    assert longer[|indices|] == i;
    forall k | k in indices
      ensures k in longer
    {}
  }

  lemma {:induction false} NoneBetween(reg: Registry, active: seq<Active>, indices: seq<nat>, j: nat, to: nat)
    requires Positions(reg, active, indices, |active|) && j <= |indices|
    requires to == if j < |indices| then indices[j] else |active|
    ensures forall i :: (if j == 0 then 0 else indices[j - 1] + 1) <= i < to ==> !Done(reg, active[i])
    ensures (if j == 0 then 0 else indices[j - 1] + 1) <= to
  {
    forall i | (if j == 0 then 0 else indices[j - 1] + 1) <= i < to
      ensures !Done(reg, active[i])
    {
      forall k | 0 <= k < |indices|
        ensures indices[k] != i
      {
        assert k < j ==> indices[k] <= indices[j - 1];
        assert k > j ==> indices[k] > indices[j];
      }
    }
  }

  lemma {:induction false} SkipUndone(reg: Registry, active: seq<Active>, from: nat, to: nat)
    requires from <= to <= |active| && forall i :: from <= i < to ==> !Done(reg, active[i])
    ensures DoneIds(reg, active[from..]) == DoneIds(reg, active[to..])
    ensures Kept(reg, active[from..]) == active[from..to] + Kept(reg, active[to..])
    decreases |active| - from
  {
    if from < to {
      assert active[from..][0] == active[from] && active[from..][1..] == active[from + 1..];
      SkipUndone(reg, active, from + 1, to);
      assert active[from..to] == [active[from]] + active[from + 1..to];
      Reassociate([active[from]], active[from + 1..to], Kept(reg, active[to..]));
    } else {
      assert active[from..to] == [];
    }
  }

  /** The removal loop of `check_completions`: taking the last index first keeps the earlier ones valid. */
  method RemoveAt(reg: Registry, start: seq<Active>, before: seq<QuestId>, indices: seq<nat>)
    returns (active: seq<Active>, completed: seq<QuestId>)
    requires Positions(reg, start, indices, |start|)
    ensures active == Kept(reg, start)
    ensures completed == before + Backwards(DoneIds(reg, start))
  {
    active, completed := start, before;
    var m := |indices|;
    ghost var cut := |start|;
    assert start[..cut] == start && start[cut..] == [];
    while m > 0
      invariant 0 <= m <= |indices|
      invariant cut == if m == |indices| then |start| else indices[m]
      invariant cut <= |start|
      invariant active == start[..cut] + Kept(reg, start[cut..])
      invariant completed == before + Backwards(DoneIds(reg, start[cut..]))
    {
      var idx := indices[m - 1];
      NoneBetween(reg, start, indices, m, cut);
      RemoveOne(reg, start, idx, cut);
      assert active[idx] == start[idx];
      completed := completed + [active[idx].quest];
      active := active[..idx] + active[idx + 1..];
      cut := idx;
      m := m - 1;
    }
    if |indices| == 0 {
      NoneBetween(reg, start, indices, 0, |start|);
    } else {
      NoneBetween(reg, start, indices, 0, indices[0]);
    }
    SkipUndone(reg, start, 0, cut);
    assert start[0..] == start && start[0..cut] == start[..cut];
  }

  lemma {:induction false} RemoveOne(reg: Registry, start: seq<Active>, idx: nat, cut: nat)
    requires idx < cut <= |start| && Done(reg, start[idx])
    requires forall i :: idx + 1 <= i < cut ==> !Done(reg, start[i])
    ensures var active := start[..cut] + Kept(reg, start[cut..]);
      && active[idx] == start[idx]
      && active[..idx] + active[idx + 1..] == start[..idx] + Kept(reg, start[idx..])
    ensures DoneIds(reg, start[idx..]) == [start[idx].quest] + DoneIds(reg, start[cut..])
    ensures forall s: seq<QuestId> ::
      s + Backwards(DoneIds(reg, start[idx..])) == s + Backwards(DoneIds(reg, start[cut..])) + [start[idx].quest]
  {
    assert start[idx..][0] == start[idx] && start[idx..][1..] == start[idx + 1..];
    SkipUndone(reg, start, idx + 1, cut);
    var active := start[..cut] + Kept(reg, start[cut..]);
    assert active[idx + 1..] == start[idx + 1..cut] + Kept(reg, start[cut..]);
    assert active[..idx] == start[..idx];
    var ids := DoneIds(reg, start[cut..]);
    assert ([start[idx].quest] + ids)[1..] == ids;
    forall s: seq<QuestId>
      ensures s + (Backwards(ids) + [start[idx].quest]) == s + Backwards(ids) + [start[idx].quest]
    {
      Reassociate(s, Backwards(ids), [start[idx].quest]);
    }
  }
}

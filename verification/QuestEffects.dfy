/**
 What a deed does to each objective, which reports it yields, and in which order finished quests leave
 the list, told objective by objective.
 */
module QuestEffects {
  import opened Wrappers
  import opened Quests
  import opened QuestReach

  /** The deed is of the objective's kind and about its target. */
  predicate Matches(o: Objective, d: Deed) {
    match (o, d)
    case (Kill(npc, _), Killed(dead)) => npc == dead
    case (Gather(item, _), Gathered(found, _)) => item == found
    case (Craft(item, _), Crafted(made, _)) => item == made
    case _ => false
  }

  /** The counter after the deed, before any cap; it is 32 bits wide. */
  function Count(p: Progress, d: Deed): nat {
    match d
    case Killed(_) => (p.current + 1) % 4294967296
    case Gathered(_, n) => (p.current + n) % 4294967296
    case Crafted(_, n) => (p.current + n) % 4294967296
  }

  /** From `p` to `q`: counted, and complete as soon as the requirement is met; only kills run past it. */
  ghost predicate Progressed(p: Progress, q: Progress, d: Deed) {
    && q.required == p.required
    && (q.complete <==> Count(p, d) >= p.required)
    && q.current == (if Count(p, d) >= p.required && !d.Killed? then p.required else Count(p, d))
  }

  /** Objective `k` of this quest takes note of the deed. */
  predicate Notes(reg: Registry, a: Active, d: Deed, k: nat) {
    && a.quest in reg && k < |reg[a.quest].objectives| && k < |a.objectives|
    && Matches(reg[a.quest].objectives[k], d) && !a.objectives[k].complete
  }

  /** A deed moves exactly the open objectives of its kind and target, in every active quest. */
  lemma {:induction false} DeedExactly(reg: Registry, active: seq<Active>, d: Deed, i: nat, k: nat)
    requires Shaped(reg, active) && i < |active| && k < |active[i].objectives|
    ensures var a := active[i]; var b := AllAdvanced(reg, active, d)[i];
      && |AllAdvanced(reg, active, d)| == |active|
      && b.quest == a.quest && b.tick == a.tick && |b.objectives| == |a.objectives|
      && (if Notes(reg, a, d, k) then Progressed(a.objectives[k], b.objectives[k], d)
          else b.objectives[k] == a.objectives[k])
  {
    var a := active[i];
    assert ShapedAt(reg, a);
    if a.quest in reg {
      AdvanceAt(a.quest, reg[a.quest].objectives, a.objectives, d, 0, k);
    }
  }

  // ---------- Reports ----------

  /** A report says where an open objective of this kind, from the `i`-th on, stands afterwards. */
  predicate Truthful(r: Report, id: QuestId, os: seq<Objective>, ps: seq<Progress>, d: Deed, i: nat, qs: seq<Progress>)
    requires |os| <= |ps| == |qs|
  {
    && r.quest == id && i <= r.objective < |os| && Moves(os[r.objective], ps[r.objective], d)
    && r.current == qs[r.objective].current && r.required == qs[r.objective].required
  }

  ghost predicate Rising(rs: seq<Report>) {
    forall j, k :: 0 <= j < k < |rs| ==> rs[j].objective < rs[k].objective
  }

  ghost predicate Told(reports: seq<Report>, k: nat) {
    exists j :: 0 <= j < |reports| && reports[j].objective == k
  }

  /** The reports on one quest: one for each moving objective from `i` on, in order. */
  ghost predicate ReportsTell(id: QuestId, os: seq<Objective>, ps: seq<Progress>, d: Deed, i: nat, round: Round)
    requires |os| <= |ps| == |round.objectives|
  {
    && (forall j :: 0 <= j < |round.reports| ==> Truthful(round.reports[j], id, os, ps, d, i, round.objectives))
    && Rising(round.reports)
    && (forall k :: i <= k < |os| && Moves(os[k], ps[k], d) ==> Told(round.reports, k))
  }

  lemma RisingFirst(first: Report, rest: seq<Report>)
    requires Rising(rest) && forall j :: 0 <= j < |rest| ==> first.objective < rest[j].objective
    ensures Rising([first] + rest)
  {}

  lemma ToldFirst(first: Report, rest: seq<Report>, k: nat)
    ensures Told([first] + rest, k) <==> k == first.objective || Told(rest, k)
  {
    var all := [first] + rest;
    assert all[0] == first;
    if Told(rest, k) {
      var j :| 0 <= j < |rest| && rest[j].objective == k;
      assert all[j + 1].objective == k;
    }
  }

  lemma TellFirst(id: QuestId, os: seq<Objective>, ps: seq<Progress>, d: Deed, i: nat, p: Progress, rest: Round)
    requires i < |os| <= |ps| == |rest.objectives| && Moves(os[i], ps[i], d)
    requires ReportsTell(id, os, ps[i := p], d, i + 1, rest) && rest.objectives[i] == p
    ensures ReportsTell(id, os, ps, d, i, Round(rest.objectives, [Report(id, i, p.current, p.required)] + rest.reports))
  {
    var first := Report(id, i, p.current, p.required);
    forall j | 0 <= j < |rest.reports|
      ensures Truthful(rest.reports[j], id, os, ps, d, i, rest.objectives) && i < rest.reports[j].objective
    {
      assert Truthful(rest.reports[j], id, os, ps[i := p], d, i + 1, rest.objectives);
    }
    RisingFirst(first, rest.reports);
    forall k | i <= k < |os| && Moves(os[k], ps[k], d)
      ensures Told([first] + rest.reports, k)
    {
      ToldFirst(first, rest.reports, k);
    }
  }

  lemma {:induction false} RoundTells(id: QuestId, os: seq<Objective>, ps: seq<Progress>, d: Deed, i: nat)
    requires i <= |os| <= |ps|
    ensures |Advance(id, os, ps, d, i).objectives| == |ps|
    ensures ReportsTell(id, os, ps, d, i, Advance(id, os, ps, d, i))
    decreases |os| - i
  {
    if i < |os| {
      if Moves(os[i], ps[i], d) {
        var p := Bumped(ps[i], d);
        RoundTells(id, os, ps[i := p], d, i + 1);
        AdvanceAt(id, os, ps[i := p], d, i + 1, i);
        TellFirst(id, os, ps, d, i, p, Advance(id, os, ps[i := p], d, i + 1));
      } else {
        RoundTells(id, os, ps, d, i + 1);
      }
    }
  }

  /** A deed is reported once for each objective that notes it, in order and with its new count. */
  lemma {:induction false} ReportsExactly(reg: Registry, a: Active, d: Deed)
    requires ShapedAt(reg, a)
    ensures var rs := ReportsOf(reg, a, d); var b := Advanced(reg, a, d);
      && |b.objectives| == |a.objectives| && Rising(rs)
      && (forall j :: 0 <= j < |rs| ==> IsReport(reg, a, b, d, rs[j]))
      && (forall k: nat :: Notes(reg, a, d, k) ==> Told(rs, k))
  {
    if a.quest in reg {
      var os := reg[a.quest].objectives;
      var round := Advance(a.quest, os, a.objectives, d, 0);
      RoundTells(a.quest, os, a.objectives, d, 0);
      forall k: nat | k < |os|
        ensures Moves(os[k], a.objectives[k], d) <==> Notes(reg, a, d, k)
        ensures round.objectives[k].required == a.objectives[k].required
      {
        AdvanceAt(a.quest, os, a.objectives, d, 0, k);
      }
      forall j | 0 <= j < |round.reports|
        ensures IsReport(reg, a, Advanced(reg, a, d), d, round.reports[j])
      {
        assert Truthful(round.reports[j], a.quest, os, a.objectives, d, 0, round.objectives);
      }
    }
  }

  ghost predicate IsReport(reg: Registry, a: Active, b: Active, d: Deed, r: Report) {
    && Notes(reg, a, d, r.objective) && r.objective < |b.objectives|
    && r == Report(a.quest, r.objective, b.objectives[r.objective].current, a.objectives[r.objective].required)
  }

  /** The quests of the list are reported on one after the other. */
  lemma {:induction false} ReportsInOrder(reg: Registry, xs: seq<Active>, ys: seq<Active>, d: Deed)
    requires Shaped(reg, xs + ys) && Shaped(reg, xs) && Shaped(reg, ys)
    ensures AllReports(reg, xs + ys, d) == AllReports(reg, xs, d) + AllReports(reg, ys, d)
    decreases |xs|
  {
    if xs == [] {
      assert xs + ys == ys;
    } else {
      assert (xs + ys)[0] == xs[0] && (xs + ys)[1..] == xs[1..] + ys;
      assert forall i :: 0 <= i < |xs[1..]| ==> xs[1..][i] == xs[i + 1];
      assert forall i :: 0 <= i < |(xs + ys)[1..]| ==> (xs + ys)[1..][i] == (xs + ys)[i + 1];
      assert Shaped(reg, xs[1..] + ys);
      ReportsInOrder(reg, xs[1..], ys, d);
    }
  }

  // ---------- Accepting ----------

  /** What a quest asks of its objectives: one visit or talk, any other number as given. */
  predicate AsksFor(o: Objective, n: nat) {
    match o
    case Kill(_, count) => n == count
    case Gather(_, count) => n == count
    case Deliver(_, count, _) => n == count
    case Craft(_, count) => n == count
    case Explore => n == 1
    case TalkTo(_) => n == 1
  }

  ghost predicate Running(s: State, id: QuestId) {
    exists i :: 0 <= i < |s.active| && s.active[i].quest == id
  }

  lemma {:induction false} MissingExactly(prerequisites: seq<QuestId>, completed: seq<QuestId>)
    ensures Missing(prerequisites, completed) == [] <==> forall p :: p in prerequisites ==> p in completed
    ensures forall p :: p in Missing(prerequisites, completed) <==> p in prerequisites && p !in completed
  {
    if prerequisites != [] {
      MissingExactly(prerequisites[1..], completed);
      assert prerequisites == [prerequisites[0]] + prerequisites[1..];
      assert forall p :: p in Missing(prerequisites, completed) <==> p in prerequisites && p !in completed;
      if Missing(prerequisites, completed) != [] {
        assert Missing(prerequisites, completed)[0] in Missing(prerequisites, completed);
      }
    }
  }

  /**
   A quest is accepted exactly when it is known, the level is reached, all prerequisites are completed, it
   is not running, not completed before unless repeatable, and there is room; it starts at nothing done.
   */
  lemma {:induction false} AcceptedExactly(reg: Registry, s: State, id: QuestId, level: nat, tick: nat)
    ensures var t := Accept(reg, s, id, level, tick);
      var ok := id in reg && level >= reg[id].level && (forall p :: p in reg[id].prerequisites ==> p in s.completed)
                && !Running(s, id) && (id in s.completed ==> reg[id].repeatable) && |s.active| < s.maxActive;
      && (AcceptError(reg, s, id, level).None? <==> ok)
      && (!ok ==> t == s)
      && (ok ==>
            && |t.active| == |s.active| + 1 && t.active[..|s.active|] == s.active && t.completed == s.completed
            && var a := t.active[|s.active|];
               a.quest == id && a.tick == tick && |a.objectives| == |reg[id].objectives|
               && forall k :: 0 <= k < |a.objectives| ==>
                    && a.objectives[k].current == 0 && !a.objectives[k].complete
                    && AsksFor(reg[id].objectives[k], a.objectives[k].required))
  {
    if id in reg {
      MissingExactly(reg[id].prerequisites, s.completed);
    }
  }

  /** The reason a quest is refused for, each only if none before it applies. */
  lemma {:induction false} RefusedFor(reg: Registry, s: State, id: QuestId, level: nat)
    ensures var e := AcceptError(reg, s, id, level);
      && (e == Some(NotFound) <==> id !in reg)
      && (id in reg ==>
            var q := reg[id];
            var open := level >= q.level && forall p :: p in q.prerequisites ==> p in s.completed;
            && (level < q.level ==> e == Some(LevelTooLow(q.level, level)))
            && (level >= q.level && !open ==>
                  e.Some? && e.value.PrerequisitesNotMet?
                  && forall p :: p in e.value.missing <==> p in q.prerequisites && p !in s.completed)
            && (open && Running(s, id) ==> e == Some(AlreadyActive))
            && (open && !Running(s, id) && !q.repeatable && id in s.completed ==> e == Some(AlreadyCompleted))
            && (open && !Running(s, id) && (q.repeatable || id !in s.completed) && |s.active| >= s.maxActive ==>
                  e == Some(TooManyActive)))
  {
    if id in reg {
      MissingExactly(reg[id].prerequisites, s.completed);
    }
  }

  // ---------- Handing in ----------

  /** A quest is finished when it is registered and none of its objectives is open. */
  predicate Finished(reg: Registry, a: Active) {
    a.quest in reg && forall i :: 0 <= i < |a.objectives| ==> a.objectives[i].complete
  }

  /** What stays and what is handed in keep the order of the list. */
  lemma {:induction false} HandedInOrder(reg: Registry, xs: seq<Active>, a: Active, ys: seq<Active>)
    ensures Kept(reg, xs + [a] + ys) == Kept(reg, xs) + (if Finished(reg, a) then [] else [a]) + Kept(reg, ys)
    ensures DoneIds(reg, xs + [a] + ys)
         == DoneIds(reg, xs) + (if Finished(reg, a) then [a.quest] else []) + DoneIds(reg, ys)
    decreases |xs|
  {
    var all := xs + [a] + ys;
    if xs == [] {
      assert all[0] == a && all[1..] == ys;
      assert Done(reg, a) <==> Finished(reg, a);
    } else {
      assert all[0] == xs[0] && all[1..] == xs[1..] + [a] + ys;
      HandedInOrder(reg, xs[1..], a, ys);
    }
  }

  /** They are recorded as completed after the earlier ones, the last of the list first. */
  lemma {:induction false} RecordedBackwards(reg: Registry, s: State, i: nat)
    requires i < |DoneIds(reg, s.active)|
    ensures var t := HandIn(reg, s); var ids := DoneIds(reg, s.active);
      && |t.completed| == |s.completed| + |ids| && s.completed <= t.completed
      && t.completed[|s.completed| + i] == ids[|ids| - 1 - i]
  {
    BackwardsAt(DoneIds(reg, s.active), i);
  }

  lemma {:induction false} BackwardsAt<T>(s: seq<T>, i: nat)
    requires i < |s|
    ensures |Backwards(s)| == |s| && Backwards(s)[i] == s[|s| - 1 - i]
    decreases |s|
  {
    if |s| > 1 {
      BackwardsAt(s[1..], if i < |s| - 1 then i else 0);
    }
  }
}

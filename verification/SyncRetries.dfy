/**
 The life of an unanswered request. Each retry moves a request to a fresh id, so a request is followed
 from id to id through the reports of `tick`, over any interleaving of other events.
 */
module SyncRetries {
  import opened Wrappers
  import opened OrderedKeys
  import opened Arithmetic
  import opened Sync
  import opened SyncRuns

  /** The id under which request `id` is pending after the given timed-out requests were processed. */
  ghost function Heir<T>(ids: seq<RequestId>, pending: Pending<T>, nextId: RequestId, tick: nat, max: nat,
      id: RequestId)
    : Option<RequestId>
    requires id in pending
    decreases |ids|
  {
    if ids == [] then
      Some(id)
    else if ids[0] == id then
      if pending[id].retries + 1 > max then None else Some(nextId)
    else
      var one := RetryOne(ids[0], pending, nextId, tick, max);
      if id in one.pending then Heir(ids[1..], one.pending, one.nextId, tick, max, id) else None
  }

  lemma {:induction false} ReportsOnlyTimedOut<T>(ids: seq<RequestId>, pending: Pending<T>, nextId: RequestId,
      tick: nat, max: nat, id: RequestId)
    requires id !in ids
    ensures var r := RetryAll(ids, pending, nextId, tick, max).results;
            Error(Timeout(id)) !in r && Error(MaxRetries(id)) !in r
    decreases |ids|
  {
    if ids != [] {
      var one := RetryOne(ids[0], pending, nextId, tick, max);
      ReportsOnlyTimedOut(ids[1..], one.pending, one.nextId, tick, max, id);
    }
  }

  /** Processing other requests leaves `id` as it is. */
  lemma {:induction false} RetryLeaves<T>(ids: seq<RequestId>, pending: Pending<T>, nextId: RequestId, tick: nat,
      max: nat, id: RequestId)
    requires IdsBelow(pending, nextId) && Aged(pending, tick) && id in pending && id !in ids
    ensures var r := RetryAll(ids, pending, nextId, tick, max);
            id in r.pending && r.pending[id] == pending[id]
    ensures Heir(ids, pending, nextId, tick, max, id) == Some(id)
    decreases |ids|
  {
    if ids != [] {
      var one := RetryOne(ids[0], pending, nextId, tick, max);
      RetryOneKeeps(ids[0], pending, nextId, tick, max);
      RetryLeaves(ids[1..], one.pending, one.nextId, tick, max, id);
    }
  }

  /** A timed-out request is reported once: as `MaxRetries` and gone, or as `Timeout` and moved to its heir. */
  lemma {:induction false} RetryMoves<T>(ids: seq<RequestId>, pending: Pending<T>, nextId: RequestId, tick: nat,
      max: nat, id: RequestId)
    requires IdsBelow(pending, nextId) && Aged(pending, tick) && Distinct(ids) && id in pending && id in ids
    requires forall i :: i in ids ==> i < nextId
    ensures var r := RetryAll(ids, pending, nextId, tick, max);
            var h := Heir(ids, pending, nextId, tick, max, id);
            if pending[id].retries + 1 > max then
              h == None && Error(MaxRetries(id)) in r.results && Error(Timeout(id)) !in r.results
            else
              && h.Some? && h.value in r.pending
              && r.pending[h.value] == pending[id].(retries := pending[id].retries + 1, createdTick := tick)
              && Error(Timeout(id)) in r.results && Error(MaxRetries(id)) !in r.results
    decreases |ids|
  {
    var one := RetryOne(ids[0], pending, nextId, tick, max);
    var rest := RetryAll(ids[1..], one.pending, one.nextId, tick, max);
    RetryOneKeeps(ids[0], pending, nextId, tick, max);
    assert RetryAll(ids, pending, nextId, tick, max) == Prepend(one.results, rest);
    if ids[0] == id {
      ReportsOnlyTimedOut(ids[1..], one.pending, one.nextId, tick, max, id);
      assert one.results[0] in one.results;
      if pending[id].retries + 1 <= max {
        assert nextId !in ids;
        RetryLeaves(ids[1..], one.pending, one.nextId, tick, max, nextId);
      }
    } else {
      assert ids == [ids[0]] + ids[1..];
      assert forall i :: i in ids[1..] ==> i in ids;
      RetryMoves(ids[1..], one.pending, one.nextId, tick, max, id);
    }
  }

  // ---------- One request of the engine ----------

  datatype Timer = Timer(createdTick: nat, retries: nat)

  function TimerIn<T>(pending: Pending<T>, id: RequestId): Timer
    requires id in pending
  {
    Timer(pending[id].createdTick, pending[id].retries)
  }

  /** Header requests and body requests are retried alike; `body` says which kind is followed. */
  ghost predicate Has(s: State, body: bool, id: RequestId) {
    if body then id in s.bodyRequests else id in s.headerRequests
  }

  ghost function TimerOf(s: State, body: bool, id: RequestId): Timer
    requires Has(s, body, id)
  {
    if body then TimerIn(s.bodyRequests, id) else TimerIn(s.headerRequests, id)
  }

  ghost function HeirOf(c: Config, s: State, hs: seq<RequestId>, bs: seq<RequestId>, body: bool,
      id: RequestId): Option<RequestId>
    requires Has(s, body, id)
  {
    var now := s.tick + 1;
    if body
    then Heir(bs, s.bodyRequests, RetryAll(hs, s.headerRequests, s.nextId, now, c.maxRetries).nextId, now, c.maxRetries,
        id)
    else Heir(hs, s.headerRequests, s.nextId, now, c.maxRetries, id)
  }

  /** What one tick does to a pending request whose timer reads `was`. */
  ghost predicate Ticks(c: Config, s: State, t: State, results: seq<SyncResult>, body: bool, id: RequestId,
      h: Option<RequestId>)
    requires Has(s, body, id)
  {
    var was := TimerOf(s, body, id);
    if t.tick - was.createdTick <= c.timeoutTicks then
      && h == Some(id) && Has(t, body, id) && TimerOf(t, body, id) == was
      && Error(Timeout(id)) !in results && Error(MaxRetries(id)) !in results
    else if was.retries + 1 > c.maxRetries then
      h == None && Error(MaxRetries(id)) in results && Error(Timeout(id)) !in results
    else
      && h.Some? && Has(t, body, h.value) && TimerOf(t, body, h.value) == Timer(t.tick, was.retries + 1)
      && Error(Timeout(id)) in results && Error(MaxRetries(id)) !in results
  }

  lemma {:induction false} RetryTicks<T>(ids: seq<RequestId>, pending: Pending<T>, nextId: RequestId, tick: nat,
      timeout: nat, max: nat, id: RequestId)
    requires IdsBelow(pending, nextId) && Aged(pending, tick) && IsOrder(ids, TimedOut(pending, tick, timeout))
        && id in pending
    ensures var r := RetryAll(ids, pending, nextId, tick, max);
            var h := Heir(ids, pending, nextId, tick, max, id);
            if tick - pending[id].createdTick <= timeout then
              && h == Some(id) && id in r.pending && r.pending[id] == pending[id]
              && Error(Timeout(id)) !in r.results && Error(MaxRetries(id)) !in r.results
            else if pending[id].retries + 1 > max then
              h == None && Error(MaxRetries(id)) in r.results && Error(Timeout(id)) !in r.results
            else
              && h.Some? && h.value in r.pending && TimerIn(r.pending, h.value) == Timer(tick, pending[id].retries + 1)
              && Error(Timeout(id)) in r.results && Error(MaxRetries(id)) !in r.results
  {
    assert forall i :: i in ids ==> i in pending;
    if id in ids {
      RetryMoves(ids, pending, nextId, tick, max, id);
    } else {
      RetryLeaves(ids, pending, nextId, tick, max, id);
      ReportsOnlyTimedOut(ids, pending, nextId, tick, max, id);
    }
  }

  lemma HeaderTicks(c: Config, s: State, hs: seq<RequestId>, bs: seq<RequestId>, id: RequestId)
    requires Sound(c, s) && TickOrders(c, s, hs, bs) && id in s.headerRequests
    ensures Ticks(c, s, Tick(c, s, hs, bs).0, Tick(c, s, hs, bs).1, false, id, HeirOf(c, s, hs, bs, false, id))
  {
    var h := RetryAll(hs, s.headerRequests, s.nextId, s.tick + 1, c.maxRetries);
    var b := RetryAll(bs, s.bodyRequests, h.nextId, s.tick + 1, c.maxRetries);
    assert id !in bs;
    ReportsOnlyTimedOut(bs, s.bodyRequests, h.nextId, s.tick + 1, c.maxRetries, id);
    RetryTicks(hs, s.headerRequests, s.nextId, s.tick + 1, c.timeoutTicks, c.maxRetries, id);
    assert Tick(c, s, hs, bs).1 == h.results + b.results;
    assert Tick(c, s, hs, bs).0.headerRequests == h.pending;
  }

  lemma BodyTicks(c: Config, s: State, hs: seq<RequestId>, bs: seq<RequestId>, id: RequestId)
    requires Sound(c, s) && TickOrders(c, s, hs, bs) && id in s.bodyRequests
    ensures Ticks(c, s, Tick(c, s, hs, bs).0, Tick(c, s, hs, bs).1, true, id, HeirOf(c, s, hs, bs, true, id))
  {
    var h := RetryAll(hs, s.headerRequests, s.nextId, s.tick + 1, c.maxRetries);
    assert id !in hs;
    ReportsOnlyTimedOut(hs, s.headerRequests, s.nextId, s.tick + 1, c.maxRetries, id);
    RetryTicks(bs, s.bodyRequests, h.nextId, s.tick + 1, c.timeoutTicks, c.maxRetries, id);
  }

  lemma TickTicks(c: Config, s: State, hs: seq<RequestId>, bs: seq<RequestId>, body: bool, id: RequestId)
    requires Sound(c, s) && TickOrders(c, s, hs, bs) && Has(s, body, id)
    ensures Ticks(c, s, Tick(c, s, hs, bs).0, Tick(c, s, hs, bs).1, body, id, HeirOf(c, s, hs, bs, body, id))
    ensures Tick(c, s, hs, bs).0.tick == s.tick + 1
  {
    if body {
      BodyTicks(c, s, hs, bs, id);
    } else {
      HeaderTicks(c, s, hs, bs, id);
    }
  }

  /** Events other than ticks leave the timer of a request they do not remove. */
  lemma OthersKeepTimer(c: Config, s: State, e: Event, body: bool, id: RequestId)
    requires Sound(c, s) && Possible(c, s, e) && !e.Ticked? && Has(s, body, id) && Has(Step(c, s, e), body, id)
    ensures TimerOf(Step(c, s, e), body, id) == TimerOf(s, body, id)
    ensures Step(c, s, e).tick == s.tick
  {
    match e
    case PollH =>
      var spans := SpansToIssue(c, s);
      if spans != [] {
        IssueAdds(s.headerRequests, s.nextId, spans, s.target.value.peer, s.tick);
      }
    case PollB =>
      if s.phase.DownloadingBodies? {
        var chunks := Chunks(HashesToFetch(s.headers, BodyLimit(c, |s.bodyRequests|)), c.bodiesPerRequest);
        IssueAdds(s.bodyRequests, s.nextId, chunks, PeerOrEmpty(TargetPeer(s.target)), s.tick);
      }
    case _ =>
  }

  // ---------- Its whole life ----------

  /** What was reported about a request over a run, and the id under which it is pending at the end, if any. */
  datatype Watched = Watched(alive: Option<RequestId>, timeouts: nat, spent: nat)

  ghost function Count(results: seq<SyncResult>, r: SyncResult): nat {
    if r in results then 1 else 0
  }

  ghost function Watch(c: Config, s: State, body: bool, id: RequestId, es: seq<Event>): Watched
    requires PossibleRun(c, s, es) && Has(s, body, id)
    decreases |es|
  {
    if es == [] then
      Watched(Some(id), 0, 0)
    else
      var t := Step(c, s, es[0]);
      if es[0].Ticked? then
        var results := Tick(c, s, es[0].hs, es[0].bs).1;
        var h := HeirOf(c, s, es[0].hs, es[0].bs, body, id);
        var w := if h.Some? && Has(t, body, h.value) then Watch(c, t, body, h.value, es[1..]) else Watched(None, 0, 0);
        Watched(w.alive, w.timeouts + Count(results, Error(Timeout(id))),
            w.spent + Count(results, Error(MaxRetries(id))))
      else if Has(t, body, id) then
        Watch(c, t, body, id, es[1..])
      else
        Watched(None, 0, 0)
  }

  /** No event of the run answers the request. */
  ghost predicate Unanswered(c: Config, s: State, body: bool, id: RequestId, es: seq<Event>)
    requires PossibleRun(c, s, es) && Has(s, body, id)
    decreases |es|
  {
    es == [] ||
    var t := Step(c, s, es[0]);
    if es[0].Ticked? then
      var h := HeirOf(c, s, es[0].hs, es[0].bs, body, id);
      h.Some? && Has(t, body, h.value) ==> Unanswered(c, t, body, h.value, es[1..])
    else
      Has(t, body, id) && Unanswered(c, t, body, id, es[1..])
  }

  function TickCount(es: seq<Event>): nat
    decreases |es|
  {
    if es == [] then 0 else TickCount(es[1..]) + if es[0].Ticked? then 1 else 0
  }

  /** Retries used up after `age` ticks, and the age at which a request is given up. */
  function RetriesAt(c: Config, age: nat): nat { age / (c.timeoutTicks + 1) }

  function Lifetime(c: Config): nat { (c.maxRetries + 1) * (c.timeoutTicks + 1) }

  function AgeOf(c: Config, retries: nat, since: nat): nat {
    retries * (c.timeoutTicks + 1) + since
  }

  /** Since it was first issued, the request has lived for `age` ticks. */
  ghost predicate LivedFor(c: Config, s: State, body: bool, id: RequestId, age: nat)
    requires Has(s, body, id)
  {
    var timer := TimerOf(s, body, id);
    && timer.createdTick <= s.tick <= timer.createdTick + c.timeoutTicks
    && age == AgeOf(c, timer.retries, s.tick - timer.createdTick)
    && timer.retries <= c.maxRetries
  }

  lemma DivideAge(c: Config, retries: nat, a: nat)
    requires a <= c.timeoutTicks
    ensures RetriesAt(c, AgeOf(c, retries, a)) == retries
  {
    Quotient(retries, c.timeoutTicks + 1, a);
  }

  lemma BeforeTheEnd(c: Config, retries: nat, a: nat)
    requires a <= c.timeoutTicks && retries <= c.maxRetries
    ensures var age := AgeOf(c, retries, a);
            && age < Lifetime(c)
            && (a == c.timeoutTicks && retries == c.maxRetries <==> age + 1 == Lifetime(c))
            && (a == c.timeoutTicks ==> age + 1 == (retries + 1) * (c.timeoutTicks + 1))
  {
    var d := c.timeoutTicks + 1;
    assert (retries + 1) * d == retries * d + d;
    assert (retries + 1) * d <= (c.maxRetries + 1) * d;
    if retries < c.maxRetries {
      assert (retries + 2) * d <= (c.maxRetries + 1) * d;
      assert (retries + 2) * d == (retries + 1) * d + d;
    }
  }

  /** One tick older: still pending, or given up at the end of its lifetime. */
  ghost predicate Older(c: Config, t: State, results: seq<SyncResult>, body: bool, id: RequestId, h: Option<RequestId>,
      age: nat) {
    if age + 1 == Lifetime(c) then
      && h == None && RetriesAt(c, age) == c.maxRetries
      && Count(results, Error(MaxRetries(id))) == 1 && Count(results, Error(Timeout(id))) == 0
    else
      && h.Some? && Has(t, body, h.value) && LivedFor(c, t, body, h.value, age + 1)
      && Count(results, Error(MaxRetries(id))) == 0
      && Count(results, Error(Timeout(id))) == RetriesAt(c, age + 1) - RetriesAt(c, age)
  }

  lemma TickAges(c: Config, s: State, t: State, results: seq<SyncResult>, body: bool, id: RequestId,
      h: Option<RequestId>, age: nat)
    requires Has(s, body, id) && LivedFor(c, s, body, id, age)
    requires t.tick == s.tick + 1 && Ticks(c, s, t, results, body, id, h)
    ensures age < Lifetime(c) && Older(c, t, results, body, id, h, age)
  {
    var timer := TimerOf(s, body, id);
    var a := s.tick - timer.createdTick;
    DivideAge(c, timer.retries, a);
    BeforeTheEnd(c, timer.retries, a);
    if a < c.timeoutTicks {
      DivideAge(c, timer.retries, a + 1);
    } else {
      DivideAge(c, timer.retries + 1, 0);
    }
  }

  /** What is reported over `n` ticks about a request that was `age` ticks old at the start. */
  ghost predicate LivesOn(c: Config, w: Watched, age: nat, n: nat) {
    if age + n < Lifetime(c)
    then w.alive.Some? && w.spent == 0 && w.timeouts == RetriesAt(c, age + n) - RetriesAt(c, age)
    else w.alive.None? && w.spent == 1 && w.timeouts == c.maxRetries - RetriesAt(c, age)
  }

  lemma LivesOneMore(c: Config, w: Watched, r: Watched, age: nat, n: nat, timeouts: nat, spent: nat)
    requires age + 1 != Lifetime(c)
    requires timeouts == RetriesAt(c, age + 1) - RetriesAt(c, age) && spent == 0
    requires w == Watched(r.alive, r.timeouts + timeouts, r.spent + spent)
    ensures LivesOn(c, r, age + 1, n) ==> LivesOn(c, w, age, n + 1)
  {
    assert age + (n + 1) == age + 1 + n;
  }

  lemma LivesNoMore(c: Config, w: Watched, age: nat, n: nat)
    requires age + 1 == Lifetime(c) && RetriesAt(c, age) == c.maxRetries && w == Watched(None, 0, 1)
    ensures LivesOn(c, w, age, n + 1)
  {}

  lemma {:induction false} WatchTick(c: Config, s: State, body: bool, id: RequestId, es: seq<Event>)
    requires PossibleRun(c, s, es) && Has(s, body, id) && es != [] && es[0].Ticked?
    ensures var t := Step(c, s, es[0]);
            var results := Tick(c, s, es[0].hs, es[0].bs).1;
            var h := HeirOf(c, s, es[0].hs, es[0].bs, body, id);
            var w := Watch(c, s, body, id, es);
            && (h.Some? && Has(t, body, h.value) ==>
                  var r := Watch(c, t, body, h.value, es[1..]);
                  w == Watched(r.alive, r.timeouts + Count(results, Error(Timeout(id))),
                      r.spent + Count(results, Error(MaxRetries(id)))))
            && (h.None? ==> w == Watched(None, Count(results, Error(Timeout(id))),
                Count(results, Error(MaxRetries(id)))))
  {
  }

  lemma OneTickOlder(c: Config, s: State, e: Event, body: bool, id: RequestId, age: nat)
    requires Sound(c, s) && e.Ticked? && Possible(c, s, e) && Has(s, body, id) && LivedFor(c, s, body, id, age)
    ensures age < Lifetime(c)
    ensures Older(c, Step(c, s, e), Tick(c, s, e.hs, e.bs).1, body, id, HeirOf(c, s, e.hs, e.bs, body, id), age)
  {
    TickTicks(c, s, e.hs, e.bs, body, id);
    TickAges(c, s, Step(c, s, e), Tick(c, s, e.hs, e.bs).1, body, id, HeirOf(c, s, e.hs, e.bs, body, id), age);
  }

  /**
   A request of age `age` that is not answered stays pending for exactly `Lifetime(c) - age` more ticks.
   Until then it is reported as `Timeout` once per used-up retry; at the end it is reported as
   `MaxRetries`, once, and is gone.
   */
  lemma {:induction false} LifetimeExactly(c: Config, s: State, body: bool, id: RequestId, es: seq<Event>, age: nat)
    requires Sound(c, s) && PossibleRun(c, s, es) && Has(s, body, id)
    requires LivedFor(c, s, body, id, age) && Unanswered(c, s, body, id, es)
    ensures LivesOn(c, Watch(c, s, body, id, es), age, TickCount(es))
    decreases |es|
  {
    if es == [] {
      var timer := TimerOf(s, body, id);
      BeforeTheEnd(c, timer.retries, s.tick - timer.createdTick);
    } else if es[0].Ticked? {
      LifetimeTick(c, s, body, id, es, age);
    } else {
      OthersKeepTimer(c, s, es[0], body, id);
      StepKeepsSound(c, s, es[0]);
      LifetimeExactly(c, Step(c, s, es[0]), body, id, es[1..], age);
    }
  }

  /** A tick passes the question on to the heir, or settles it. */
  lemma {:induction false} TickPassesOn(c: Config, s: State, body: bool, id: RequestId, es: seq<Event>, age: nat)
    requires Sound(c, s) && PossibleRun(c, s, es) && Has(s, body, id) && es != [] && es[0].Ticked?
    requires LivedFor(c, s, body, id, age)
    ensures var t := Step(c, s, es[0]); var h := HeirOf(c, s, es[0].hs, es[0].bs, body, id);
      && (h.None? ==> LivesOn(c, Watch(c, s, body, id, es), age, TickCount(es)))
      && (h.Some? ==>
            && Has(t, body, h.value) && LivedFor(c, t, body, h.value, age + 1)
            && (LivesOn(c, Watch(c, t, body, h.value, es[1..]), age + 1, TickCount(es[1..])) ==>
                  LivesOn(c, Watch(c, s, body, id, es), age, TickCount(es))))
  {
    var t, results := Step(c, s, es[0]), Tick(c, s, es[0].hs, es[0].bs).1;
    var h := HeirOf(c, s, es[0].hs, es[0].bs, body, id);
    var w, n := Watch(c, s, body, id, es), TickCount(es[1..]);
    OneTickOlder(c, s, es[0], body, id, age);
    WatchTick(c, s, body, id, es);
    if h.None? {
      LivesNoMore(c, w, age, n);
    } else {
      LivesOneMore(c, w, Watch(c, t, body, h.value, es[1..]), age, n, Count(results, Error(Timeout(id))),
                   Count(results, Error(MaxRetries(id))));
    }
  }

  lemma {:induction false} LifetimeTick(c: Config, s: State, body: bool, id: RequestId, es: seq<Event>, age: nat)
    requires Sound(c, s) && PossibleRun(c, s, es) && Has(s, body, id) && es != [] && es[0].Ticked?
    requires LivedFor(c, s, body, id, age) && Unanswered(c, s, body, id, es)
    ensures LivesOn(c, Watch(c, s, body, id, es), age, TickCount(es))
    decreases |es|, 0
  {
    var h := HeirOf(c, s, es[0].hs, es[0].bs, body, id);
    TickPassesOn(c, s, body, id, es, age);
    if h.Some? {
      StepKeepsSound(c, s, es[0]);
      LifetimeExactly(c, Step(c, s, es[0]), body, h.value, es[1..], age + 1);
    }
  }

  /** From the moment it is issued: `maxRetries` timeouts, then `MaxRetries` at tick `Lifetime(c)`, not before. */
  lemma {:induction false} FreshRequestLifetime(c: Config, s: State, body: bool, id: RequestId, es: seq<Event>)
    requires Sound(c, s) && PossibleRun(c, s, es) && Has(s, body, id)
    requires TimerOf(s, body, id) == Timer(s.tick, 0) && Unanswered(c, s, body, id, es)
    ensures var w := Watch(c, s, body, id, es);
            if TickCount(es) < (c.maxRetries + 1) * (c.timeoutTicks + 1)
            then w.alive.Some? && w.spent == 0 && w.timeouts == TickCount(es) / (c.timeoutTicks + 1)
            else w.alive.None? && w.spent == 1 && w.timeouts == c.maxRetries
  {
    LifetimeExactly(c, s, body, id, es, 0);
  }
}

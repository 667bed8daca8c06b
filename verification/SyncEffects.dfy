/**
 What single events of the sync engine do, told without its loops: which target it follows, which
 headers and bodies it takes, when verification succeeds, and when it stalls and for how long.
 */
module SyncEffects {
  import opened Wrappers
  import opened OrderedKeys
  import opened Sync
  import opened SyncRuns
  import opened SyncRetries

  // ---------- The target ----------

  datatype Report = Report(peer: PeerId, bestBlock: nat, bestHash: Hash)

  function Heard(s: State, reports: seq<Report>): State
    decreases |reports|
  {
    if reports == [] then s
    else Heard(OnPeerStatus(s, reports[0].peer, reports[0].bestBlock, reports[0].bestHash), reports[1..])
  }

  /** The first of the reports of the highest block. */
  ghost predicate FirstHighest(reports: seq<Report>, i: nat) {
    && i < |reports|
    && (forall j :: 0 <= j < |reports| ==> reports[j].bestBlock <= reports[i].bestBlock)
    && (forall j :: 0 <= j < i ==> reports[j].bestBlock < reports[i].bestBlock)
  }

  function TargetOf(reports: seq<Report>, i: nat): Target
    requires i < |reports|
  {
    Target(reports[i].bestBlock, reports[i].bestHash, reports[i].peer)
  }

  /** The engine follows nobody yet, or the first report of the highest block it has heard of. */
  ghost predicate Follows(s: State, head: nat, reports: seq<Report>) {
    && s == Init(head).(phase := s.phase, target := s.target)
    && s.phase == (if s.target.Some? then DownloadingHeaders else Synced)
    && (s.target.None? <==> forall j :: 0 <= j < |reports| ==> reports[j].bestBlock <= head)
    && (s.target.Some? ==> exists i: nat :: FirstHighest(reports, i) && s.target.value == TargetOf(reports, i))
  }

  lemma FollowsOneMore(s: State, head: nat, reports: seq<Report>, r: Report)
    requires Follows(s, head, reports)
    ensures Follows(OnPeerStatus(s, r.peer, r.bestBlock, r.bestHash), head, reports + [r])
  {
    var all := reports + [r];
    var t := OnPeerStatus(s, r.peer, r.bestBlock, r.bestHash);
    assert all[|reports|] == r;
    if s.target.Some? {
      var i: nat :| FirstHighest(reports, i) && s.target.value == TargetOf(reports, i);
      assert reports[i].bestBlock > head;
      assert all[i].bestBlock > head;
      if r.bestBlock <= reports[i].bestBlock {
        assert FirstHighest(all, i);
      } else {
        assert FirstHighest(all, |reports|);
      }
    } else if r.bestBlock > head {
      assert FirstHighest(all, |reports|);
    }
  }

  lemma {:induction false} HeardFollows(s: State, head: nat, before: seq<Report>, reports: seq<Report>)
    requires Follows(s, head, before)
    ensures Follows(Heard(s, reports), head, before + reports)
    decreases |reports|
  {
    if reports == [] {
      assert before + reports == before;
    } else {
      FollowsOneMore(s, head, before, reports[0]);
      assert before + [reports[0]] + reports[1..] == before + reports;
      HeardFollows(OnPeerStatus(s, reports[0].peer, reports[0].bestBlock, reports[0].bestHash), head,
                   before + [reports[0]], reports[1..]);
    }
  }

  /**
   After any reports, a new engine syncs towards the highest block above its head that it has heard of,
   with the peer that reported it first; with no such report it stays as it was.
   */
  lemma {:induction false} TargetIsHighest(head: nat, reports: seq<Report>)
    ensures Follows(Heard(Init(head), reports), head, reports)
  {
    HeardFollows(Init(head), head, [], reports);
    assert [] + reports == reports;
  }

  /** Moving the local head forgets exactly the headers up to it, and the target once it is reached. */
  lemma HeadExactly(s: State, head: nat)
    ensures var t := UpdateLocalHead(s, head);
      && t == s.(localHead := head, headers := t.headers, phase := t.phase, target := t.target)
      && (forall n :: n in t.headers <==> n in s.headers && n > head)
      && (forall n :: n in t.headers ==> t.headers[n] == s.headers[n])
      && (if s.target.Some? && s.target.value.bestBlock <= head then t.phase == Synced && t.target == None
          else t.phase == s.phase && t.target == s.target)
  {}

  // ---------- Headers and bodies ----------

  ghost predicate Names(ms: seq<HeaderMsg>, n: nat) {
    exists i :: 0 <= i < |ms| && ms[i].number == n
  }

  /** The first of the messages with this number. */
  ghost predicate FirstNamed(ms: seq<HeaderMsg>, n: nat, i: nat) {
    i < |ms| && ms[i].number == n && forall j :: 0 <= j < i ==> ms[j].number != n
  }

  /** A stored header stays; a new number gets the first header sent for it, with neither body nor verdict. */
  lemma {:induction false} StoredExactly(headers: Headers, ms: seq<HeaderMsg>, n: nat)
    ensures var r := InsertHeaders(headers, ms);
      && (n in r <==> n in headers || Names(ms, n))
      && (n in headers ==> r[n] == headers[n])
    ensures forall i: nat :: n !in headers && FirstNamed(ms, n, i) ==>
      && n in InsertHeaders(headers, ms)
      && InsertHeaders(headers, ms)[n] == SyncedHeader(n, ms[i].hash, ms[i].parentHash, false, false)
    decreases |ms|
  {
    if ms != [] {
      var h := if ms[0].number in headers then headers else headers[ms[0].number := Downloaded(ms[0])];
      StoredExactly(h, ms[1..], n);
      NamesFirst(ms, n);
      forall i: nat | n !in headers && FirstNamed(ms, n, i)
        ensures n in InsertHeaders(headers, ms)
        ensures InsertHeaders(headers, ms)[n] == SyncedHeader(n, ms[i].hash, ms[i].parentHash, false, false)
      {
        if i > 0 {
          assert ms[0].number != n;
          assert FirstNamed(ms[1..], n, i - 1);
        }
      }
    }
  }

  lemma NamesFirst(ms: seq<HeaderMsg>, n: nat)
    requires ms != []
    ensures Names(ms, n) <==> ms[0].number == n || Names(ms[1..], n)
  {
    if Names(ms, n) {
      var i :| 0 <= i < |ms| && ms[i].number == n;
      assert i > 0 ==> ms[1..][i - 1].number == n;
    }
    if Names(ms[1..], n) {
      var i :| 0 <= i < |ms[1..]| && ms[1..][i].number == n;
      assert ms[i + 1].number == n;
    }
  }

  /**
   An answer closes exactly the requests that start where it starts, and begins the body phase once the
   target is stored and nothing is pending; an empty answer changes nothing.
   */
  lemma HeadersExactly(s: State, ms: seq<HeaderMsg>)
    ensures var (t, r) := OnHeaders(s, ms);
      && r == HeadersQueued(|ms|) && (ms == [] ==> t == s)
      && t == s.(headerRequests := t.headerRequests, headers := t.headers, phase := t.phase)
      && (ms != [] ==>
            && (forall id :: id in t.headerRequests <==>
                  id in s.headerRequests && s.headerRequests[id].what.start != ms[0].number)
            && (forall id :: id in t.headerRequests ==> t.headerRequests[id] == s.headerRequests[id])
            && t.phase == if s.target.Some? && t.headerRequests == map[]
                             && exists n :: n in t.headers && n >= s.target.value.bestBlock
                          then DownloadingBodies else s.phase)
  {
    if ms != [] && s.target.Some? {
      assert Names(ms, ms[0].number);
      StoredExactly(s.headers, ms, ms[0].number);
      ReachesExactly(InsertHeaders(s.headers, ms), s.target.value.bestBlock);
    }
  }

  lemma ReachesExactly(headers: Headers, best: nat)
    requires headers != map[]
    ensures GreatestOr0(headers.Keys) >= best <==> exists n :: n in headers && n >= best
  {
    assert headers.Keys != {};
  }

  /** Bodies close exactly the requests they answer in full; verification begins once nothing is missing or open. */
  lemma BodiesExactly(s: State, hashes: seq<Hash>)
    ensures var t := OnBodies(s, hashes).0;
      && t == s.(headers := t.headers, bodyRequests := t.bodyRequests, phase := t.phase)
      && (forall id :: id in t.bodyRequests <==>
            id in s.bodyRequests && exists h :: h in s.bodyRequests[id].what && h !in hashes)
      && (forall id :: id in t.bodyRequests ==> t.bodyRequests[id] == s.bodyRequests[id])
      && t.phase == if t.headers != map[] && t.bodyRequests == map[]
                       && forall n :: n in t.headers ==> t.headers[n].bodyDownloaded
                    then Verifying else s.phase
  {}

  /** Bodies are matched one after the other. */
  lemma {:induction false} MarkSplits(headers: Headers, xs: seq<Hash>, ys: seq<Hash>)
    ensures var (h, k) := MarkBodies(headers, xs);
      MarkBodies(headers, xs + ys) == (MarkBodies(h, ys).0, k + MarkBodies(h, ys).1)
    decreases |xs|
  {
    if xs == [] {
      assert xs + ys == ys;
    } else {
      assert (xs + ys)[0] == xs[0] && (xs + ys)[1..] == xs[1..] + ys;
      MarkSplits(Mark(headers, Taker(headers, xs[0])), xs[1..], ys);
    }
  }

  /** `n` is the lowest stored header that waits for this body. */
  ghost predicate LowestWaiting(headers: Headers, hash: Hash, n: nat) {
    && n in headers && headers[n].hash == hash && !headers[n].bodyDownloaded
    && forall k :: k in headers && headers[k].hash == hash && !headers[k].bodyDownloaded ==> n <= k
  }

  /** One body completes the lowest header that waits for it, and no other; it also answers what it can. */
  lemma OneBodyExactly(s: State, hash: Hash)
    ensures var (t, r) := OnBodies(s, [hash]);
      && t.headers.Keys == s.headers.Keys
      && (forall n :: n in s.headers ==> t.headers[n] == if LowestWaiting(s.headers, hash, n)
                                                         then s.headers[n].(bodyDownloaded := true) else s.headers[n])
      && (r == BodiesMatched(1) <==> exists n: nat :: LowestWaiting(s.headers, hash, n))
      && (r == BodiesMatched(1) || r == BodiesMatched(0))
      && (forall id :: id in t.bodyRequests <==>
            id in s.bodyRequests && exists h :: h in s.bodyRequests[id].what && h != hash)
  {
    OneMarked(s.headers, hash);
    var pending := DropAnswered(s.bodyRequests, [hash]);
    forall id | id in s.bodyRequests
      ensures id in pending <==> exists h :: h in s.bodyRequests[id].what && h != hash
    {
      assert forall h :: h in [hash] <==> h == hash;
    }
  }

  lemma {:induction false} OneMarked(headers: Headers, hash: Hash)
    ensures var (h, k) := MarkBodies(headers, [hash]);
      && h.Keys == headers.Keys
      && (forall n :: n in headers ==> h[n] == if LowestWaiting(headers, hash, n)
                                               then headers[n].(bodyDownloaded := true) else headers[n])
      && (k == 1 <==> exists n: nat :: LowestWaiting(headers, hash, n)) && k <= 1
  {
    var taker := Taker(headers, hash);
    var marked := Mark(headers, taker);
    assert [hash][1..] == [];
    assert MarkBodies(marked, []) == (marked, 0);
    TakerLowest(headers, hash);
  }

  lemma TakerLowest(headers: Headers, hash: Hash)
    ensures Taker(headers, hash).Some? ==> LowestWaiting(headers, hash, Taker(headers, hash).value)
    ensures forall n: nat :: LowestWaiting(headers, hash, n) ==> Taker(headers, hash) == Some(n)
  {
    forall n | n in headers && headers[n].hash == hash && !headers[n].bodyDownloaded
      ensures n in Wanting(headers, hash)
    {}
  }

  // ---------- Verification ----------

  /** A stored header that is not the lowest and does not continue the number before it. */
  ghost predicate Broken(headers: Headers, n: nat) {
    && n in headers && (exists k :: k in headers && k < n)
    && (n > 0 && n - 1 in headers ==> headers[n].parentHash != headers[n - 1].hash)
  }

  /** Every header but the lowest continues the one stored before it. */
  ghost predicate OneChain(headers: Headers) {
    forall n: nat :: !Broken(headers, n)
  }

  /** From `s` to `t` all headers were verified and queued in ascending order. */
  ghost predicate AllVerified(s: State, t: State, queued: seq<nat>) {
    && t == s.(headers := t.headers, importReady := s.importReady + queued, phase := Synced)
    && t.headers.Keys == s.headers.Keys
    && (forall n :: n in s.headers ==> t.headers[n] == s.headers[n].(verified := true))
    && Increasing(queued) && forall n :: n in queued <==> n in s.headers
  }

  lemma {:induction false} UnbrokenVerified(s: State, ns: seq<nat>)
    requires ns == Ascending(s.headers.Keys) && ns != [] && FirstBroken(s.headers, ns).None?
    ensures AllVerified(s, VerifyChain(s).0, ns) && VerifyChain(s).1 == RangeVerified(ns[0], ns[|ns| - 1])
  {
    assert MarkVerified(s.headers).Keys == s.headers.Keys;
  }

  lemma {:induction false} BrokenAt(headers: Headers, ns: seq<nat>, i: nat)
    requires ns == Ascending(headers.Keys) && i < |ns| && forall n :: n in ns ==> n in headers
    ensures Broken(headers, ns[i]) <==> i > 0 && !Linked(headers, ns[i - 1], ns[i])
  {
    if i > 0 {
      assert ns[i - 1] in headers && ns[i - 1] < ns[i];
      if ns[i] - 1 in headers {
        var k :| 0 <= k < |ns| && ns[k] == ns[i] - 1;
        assert k == i - 1;
      }
    } else {
      forall k | k in headers
        ensures ns[0] <= k
      {
        assert k in ns;
      }
    }
  }

  /** Up to the position where the walk ends no header is broken; the one after it, if any, is. */
  lemma {:induction false} WalkEnds(headers: Headers, ns: seq<nat>, r: nat, m: nat)
    requires ns == Ascending(headers.Keys) && ns != [] && r == FirstUnlinked(headers, ns, 0)
    ensures r + 1 < |ns| ==> Broken(headers, ns[r + 1])
    ensures (r + 1 < |ns| ==> m < ns[r + 1]) ==> !Broken(headers, m)
  {
    FirstUnlinkedIsFirst(headers, ns, 0);
    if r + 1 < |ns| {
      BrokenAt(headers, ns, r + 1);
    }
    if m in headers {
      var i :| 0 <= i < |ns| && ns[i] == m;
      BrokenAt(headers, ns, i);
    }
  }

  lemma {:induction false} UnbrokenExactly(headers: Headers, ns: seq<nat>)
    requires ns == Ascending(headers.Keys) && ns != []
    ensures FirstBroken(headers, ns).None? <==> OneChain(headers)
  {
    var r := FirstUnlinked(headers, ns, 0);
    forall m: nat
      ensures (r + 1 < |ns| ==> m < ns[r + 1]) ==> !Broken(headers, m)
    {
      WalkEnds(headers, ns, r, m);
    }
    WalkEnds(headers, ns, r, 0);
  }

  lemma LowestBroken(headers: Headers, ns: seq<nat>, r: nat, n: nat)
    requires r + 1 < |ns| ==> Broken(headers, ns[r + 1])
    requires (r + 1 < |ns| ==> n < ns[r + 1]) ==> !Broken(headers, n)
    requires Broken(headers, n) && forall m: nat :: m < n ==> !Broken(headers, m)
    ensures r + 1 < |ns| && ns[r + 1] == n
  {}

  lemma {:induction false} FirstBrokenIs(headers: Headers, ns: seq<nat>, r: nat)
    requires ns == Ascending(headers.Keys) && ns != [] && r == FirstUnlinked(headers, ns, 0)
    ensures FirstBroken(headers, ns) == if r + 1 < |ns| then Some(ns[r + 1]) else None
  {}

  /** The lowest broken header is the one that is reported. */
  lemma {:induction false} BrokenExactly(headers: Headers, ns: seq<nat>, r: nat, n: nat)
    requires ns == Ascending(headers.Keys) && ns != [] && r == FirstUnlinked(headers, ns, 0)
    requires Broken(headers, n) && forall m: nat :: m < n ==> !Broken(headers, m)
    ensures r + 1 < |ns| && ns[r + 1] == n
  {
    WalkEnds(headers, ns, r, n);
    LowestBroken(headers, ns, r, n);
  }

  /**
   Verification succeeds exactly when there are headers and they form one chain. Then all of them are
   verified and queued in ascending order and the engine is synced; otherwise nothing changes and the lowest
   broken header is reported.
   */
  lemma {:induction false} VerifiesExactly(s: State) returns (queued: seq<nat>)
    ensures var (t, r) := VerifyChain(s);
      && (r.RangeVerified? <==> s.headers != map[] && OneChain(s.headers))
      && (!r.RangeVerified? ==> t == s)
      && (s.headers == map[] ==> r == Error(NoPeers))
      && (forall n: nat :: Broken(s.headers, n) && (forall m: nat :: m < n ==> !Broken(s.headers, m)) ==>
            r == Error(BrokenChain(n)))
      && (r.RangeVerified? ==>
            && AllVerified(s, t, queued) && queued != []
            && r == RangeVerified(queued[0], queued[|queued| - 1]))
  {
    queued := Ascending(s.headers.Keys);
    NonEmptyHas(queued);
    if queued == [] {
      assert forall n :: n !in s.headers.Keys;
      assert s.headers == map[];
    } else {
      assert s.headers != map[];
      UnbrokenExactly(s.headers, queued);
      forall n: nat | Broken(s.headers, n) && forall m: nat :: m < n ==> !Broken(s.headers, m)
        ensures VerifyChain(s).1 == Error(BrokenChain(n))
      {
        var r := FirstUnlinked(s.headers, queued, 0);
        BrokenExactly(s.headers, queued, r, n);
        FirstBrokenIs(s.headers, queued, r);
      }
      if OneChain(s.headers) { UnbrokenVerified(s, queued); }
    }
  }

  // ---------- Stalling ----------

  /** At the next tick the request times out with no retry left. */
  predicate Spent<T>(c: Config, s: State, r: Request<T>) {
    s.tick + 1 - r.createdTick > c.timeoutTicks && r.retries >= c.maxRetries
  }

  lemma {:induction false} AllDropped<T>(ids: seq<RequestId>, pending: Pending<T>, nextId: RequestId, tick: nat,
                                         max: nat)
    requires Distinct(ids) && forall id :: id in pending ==> id in ids && pending[id].retries + 1 > max
    ensures RetryAll(ids, pending, nextId, tick, max).pending == map[]
    decreases |ids|
  {
    if ids != [] {
      assert ids == [ids[0]] + ids[1..];
      var one := RetryOne(ids[0], pending, nextId, tick, max);
      assert forall id :: id in one.pending ==> id in pending && id != ids[0];
      AllDropped(ids[1..], one.pending, one.nextId, tick, max);
    }
  }

  lemma {:induction false} NoneLeftExactly<T>(c: Config, s: State, ids: seq<RequestId>, pending: Pending<T>,
                                              nextId: RequestId)
    requires IdsBelow(pending, nextId) && Aged(pending, s.tick + 1)
    requires IsOrder(ids, TimedOut(pending, s.tick + 1, c.timeoutTicks))
    ensures RetryAll(ids, pending, nextId, s.tick + 1, c.maxRetries).pending == map[] <==>
      forall id :: id in pending ==> Spent(c, s, pending[id])
  {
    var r := RetryAll(ids, pending, nextId, s.tick + 1, c.maxRetries);
    if forall id :: id in pending ==> Spent(c, s, pending[id]) {
      AllDropped(ids, pending, nextId, s.tick + 1, c.maxRetries);
    } else {
      var id :| id in pending && !Spent(c, s, pending[id]);
      RetryTicks(ids, pending, nextId, s.tick + 1, c.timeoutTicks, c.maxRetries, id);
      assert r.pending != map[];
    }
  }

  lemma {:induction false} TickPhase(c: Config, s: State, hs: seq<RequestId>, bs: seq<RequestId>)
    returns (h: Retried<Span>, b: Retried<seq<Hash>>)
    ensures h == RetryAll(hs, s.headerRequests, s.nextId, s.tick + 1, c.maxRetries)
    ensures b == RetryAll(bs, s.bodyRequests, h.nextId, s.tick + 1, c.maxRetries)
    ensures Tick(c, s, hs, bs).0.phase ==
      if s.phase != Synced && h.pending == map[] && b.pending == map[] && s.headers == map[] && s.target.Some?
      then Stalled else s.phase
  {
    h := RetryAll(hs, s.headerRequests, s.nextId, s.tick + 1, c.maxRetries);
    b := RetryAll(bs, s.bodyRequests, h.nextId, s.tick + 1, c.maxRetries);
  }

  /**
   A tick stalls the engine exactly when it is after a target, has no header stored, and every request
   that is still open times out at this tick with its retries used up.
   */
  lemma {:induction false} StallsExactly(c: Config, s: State, hs: seq<RequestId>, bs: seq<RequestId>)
    requires Sound(c, s) && TickOrders(c, s, hs, bs) && s.phase != Stalled
    ensures Tick(c, s, hs, bs).0.phase == Stalled <==>
      && s.phase != Synced && s.target.Some? && s.headers == map[]
      && (forall id :: id in s.headerRequests ==> Spent(c, s, s.headerRequests[id]))
      && (forall id :: id in s.bodyRequests ==> Spent(c, s, s.bodyRequests[id]))
    ensures Tick(c, s, hs, bs).0.phase != Stalled ==> Tick(c, s, hs, bs).0.phase == s.phase
  {
    var h, b := TickPhase(c, s, hs, bs);
    RetryKeeps(hs, s.headerRequests, s.nextId, s.tick + 1, c.maxRetries);
    NoneLeftExactly(c, s, hs, s.headerRequests, s.nextId);
    NoneLeftExactly(c, s, bs, s.bodyRequests, h.nextId);
  }

  /** Nothing arrives unasked, and the local head does not reach the target by other means. */
  predicate Unaided(s: State, e: Event) {
    && !(e.Headers? && e.ms != []) && !e.Bodies?
    && (e.Head? && s.target.Some? ==> e.number < s.target.value.bestBlock)
  }

  ghost predicate UnaidedRun(c: Config, s: State, es: seq<Event>)
    requires PossibleRun(c, s, es)
    decreases |es|
  {
    es == [] || (Unaided(s, es[0]) && UnaidedRun(c, Step(c, s, es[0]), es[1..]))
  }

  /** Stalled with nothing asked for and nothing stored. */
  ghost predicate Stuck(s: State) {
    s.phase == Stalled && s.target.Some? && s.headers == map[] && s.headerRequests == map[] && s.bodyRequests == map[]
  }

  lemma StuckStep(c: Config, s: State, e: Event)
    requires Stuck(s) && Possible(c, s, e) && Unaided(s, e)
    ensures Stuck(Step(c, s, e))
  {
    if e.Ticked? {
      NothingToRetry(c, s, e.hs, e.bs);
    } else if e.Verify? {
      assert Ascending(s.headers.Keys) == [];
    } else if e.Head? {
      assert Above(s.headers, e.number) == map[];
    }
  }

  lemma NothingToRetry(c: Config, s: State, hs: seq<RequestId>, bs: seq<RequestId>)
    requires Stuck(s) && TickOrders(c, s, hs, bs)
    ensures Stuck(Tick(c, s, hs, bs).0)
  {
    NonEmptyHas(hs);
    NonEmptyHas(bs);
  }

  /**
   A stalled engine never recovers by itself: whatever new heights peers report and however often it is
   polled, it stays stalled and asks for nothing until headers or bodies arrive unasked or the local head
   reaches the target.
   */
  lemma {:induction false} StalledStays(c: Config, s: State, es: seq<Event>)
    requires Stuck(s) && PossibleRun(c, s, es) && UnaidedRun(c, s, es)
    ensures var t := Run(c, s, es);
      && t.phase == Stalled && t.headerRequests == map[] && t.bodyRequests == map[]
      && PollHeaders(c, t) == (t, []) && PollBodies(c, t) == (t, [])
    decreases |es|
  {
    if es != [] {
      StuckStep(c, s, es[0]);
      StalledStays(c, Step(c, s, es[0]), es[1..]);
    }
  }
}

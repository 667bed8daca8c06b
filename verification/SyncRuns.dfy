/** What every run of the sync engine keeps, over arbitrary interleavings of its events. */
module SyncRuns {
  import opened Wrappers
  import opened Arithmetic
  import opened OrderedKeys
  import opened Sync

  datatype Event =
    | Status(peer: PeerId, bestBlock: nat, bestHash: Hash)
    | Head(number: nat)
    | PollH
    | Headers(ms: seq<HeaderMsg>)
    | PollB
    | Bodies(hashes: seq<Hash>)
    | Verify
    | Ticked(hs: seq<RequestId>, bs: seq<RequestId>)
    | Drain

  /** The events the engine can meet: a tick walks its hash maps in some order, and chunks are not empty. */
  ghost predicate Possible(c: Config, s: State, e: Event) {
    match e
    case Ticked(hs, bs) => TickOrders(c, s, hs, bs)
    case PollB => s.phase.DownloadingBodies? ==> c.bodiesPerRequest > 0
    case _ => true
  }

  ghost function Step(c: Config, s: State, e: Event): State
    requires Possible(c, s, e)
  {
    match e
    case Status(peer, best, hash) => OnPeerStatus(s, peer, best, hash)
    case Head(n) => UpdateLocalHead(s, n)
    case PollH => PollHeaders(c, s).0
    case Headers(ms) => OnHeaders(s, ms).0
    case PollB => PollBodies(c, s).0
    case Bodies(hashes) => OnBodies(s, hashes).0
    case Verify => VerifyChain(s).0
    case Ticked(hs, bs) => Tick(c, s, hs, bs).0
    case Drain => s.(importReady := [])
  }

  ghost predicate PossibleRun(c: Config, s: State, es: seq<Event>)
    decreases |es|
  {
    es == [] || (Possible(c, s, es[0]) && PossibleRun(c, Step(c, s, es[0]), es[1..]))
  }

  ghost function Run(c: Config, s: State, es: seq<Event>): State
    requires PossibleRun(c, s, es)
    decreases |es|
  {
    if es == [] then s else Run(c, Step(c, s, es[0]), es[1..])
  }

  // ---------- Disjoint spans, bounded number, fresh ids ----------

  ghost predicate Apart(a: Span, b: Span) {
    a.start + a.count <= b.start || b.start + b.count <= a.start
  }

  ghost predicate Disjoint(pending: Pending<Span>) {
    forall i, j :: i in pending && j in pending && i != j ==> Apart(pending[i].what, pending[j].what)
  }

  ghost predicate IdsBelow<T>(pending: Pending<T>, id: RequestId) {
    forall i :: i in pending ==> i < id
  }

  /** No pending request was created in the future, so the age `tick - createdTick` never underflows. */
  ghost predicate Aged<T>(pending: Pending<T>, tick: nat) {
    forall i :: i in pending ==> pending[i].createdTick <= tick
  }

  ghost predicate Sound(c: Config, s: State) {
    && Disjoint(s.headerRequests)
    && |s.headerRequests| <= c.maxHeaderRequests
    && IdsBelow(s.headerRequests, s.nextId)
    && IdsBelow(s.bodyRequests, s.nextId)
    && s.headerRequests.Keys !! s.bodyRequests.Keys
    && Aged(s.headerRequests, s.tick)
    && Aged(s.bodyRequests, s.tick)
  }

  /** `r` is `pending` plus fresh requests for `whats`, numbered from `id`. */
  ghost predicate Issued<T>(pending: Pending<T>, id: RequestId, whats: seq<T>, peer: PeerId, tick: nat, r: Pending<T>) {
    && (forall j :: j in pending ==> j in r && r[j] == pending[j])
    && (forall j :: j in r ==> j in pending || id <= j < id + |whats|)
    && (forall j: nat {:trigger j in r} :: id <= j < id + |whats| ==>
          j in r && r[j] == Request(whats[j - id], peer, tick, 0))
  }

  lemma {:induction false} IssueAdds<T>(pending: Pending<T>, id: RequestId, whats: seq<T>, peer: PeerId, tick: nat)
    requires IdsBelow(pending, id)
    ensures Issued(pending, id, whats, peer, tick, Issue(pending, id, whats, peer, tick))
    decreases |whats|
  {
    if whats != [] {
      var next := pending[id := Request(whats[0], peer, tick, 0)];
      var r := Issue(next, id + 1, whats[1..], peer, tick);
      IssueAdds(next, id + 1, whats[1..], peer, tick);
      assert id in next;
      forall j: nat | id <= j < id + |whats|
        ensures j in r && r[j] == Request(whats[j - id], peer, tick, 0)
      {
        if j > id { assert whats[1..][j - id - 1] == whats[j - id]; }
      }
    }
  }

  lemma {:induction false} IssueSize<T>(pending: Pending<T>, id: RequestId, whats: seq<T>, peer: PeerId, tick: nat)
    requires IdsBelow(pending, id)
    ensures |Issue(pending, id, whats, peer, tick)| == |pending| + |whats|
    decreases |whats|
  {
    if whats != [] {
      var next := pending[id := Request(whats[0], peer, tick, 0)];
      assert next.Keys == pending.Keys + {id};
      IssueSize(next, id + 1, whats[1..], peer, tick);
    }
  }

  ghost predicate CoveredBy(spans: seq<Span>, n: nat) {
    exists k :: 0 <= k < |spans| && spans[k].Covers(n)
  }

  ghost function End(start: nat, spans: seq<Span>): nat {
    if spans == [] then start else spans[|spans| - 1].start + spans[|spans| - 1].count
  }

  /** New spans are consecutive from `start`, at most `maxNew` of them. */
  lemma {:induction false} NewSpansShape(start: nat, target: nat, perRequest: nat, maxNew: nat)
    ensures var r := NewSpans(start, target, perRequest, maxNew);
            && |r| <= maxNew
            && start <= End(start, r)
            && (forall i :: 0 <= i < |r| ==> start <= r[i].start && r[i].start + r[i].count <= End(start, r))
            && (forall i, j :: 0 <= i < j < |r| ==> r[i].start + r[i].count <= r[j].start)
            && (forall n: nat {:trigger CoveredBy(r, n)} :: CoveredBy(r, n) <==> start <= n < End(start, r))
    decreases maxNew
  {
    var r := NewSpans(start, target, perRequest, maxNew);
    if r != [] {
      var count := Min(perRequest, target - start + 1);
      var rest := NewSpans(start + count, target, perRequest, maxNew - 1);
      NewSpansShape(start + count, target, perRequest, maxNew - 1);
      assert r == [Span(start, count)] + rest;
      assert End(start, r) == End(start + count, rest);
      forall n: nat
        ensures CoveredBy(r, n) <==> start <= n < End(start, r)
      {
        assert CoveredBy(r, n) <==> r[0].Covers(n) || CoveredBy(rest, n) by {
          if CoveredBy(rest, n) {
            var k :| 0 <= k < |rest| && rest[k].Covers(n);
            assert r[k + 1].Covers(n);
          }
          if CoveredBy(r, n) {
            var k :| 0 <= k < |r| && r[k].Covers(n);
            if k > 0 { assert rest[k - 1].Covers(n); }
          }
        }
      }
    }
  }

  lemma RetryOneKeeps<T>(id: RequestId, pending: Pending<T>, nextId: RequestId, tick: nat, max: nat)
    requires IdsBelow(pending, nextId) && Aged(pending, tick)
    ensures var r := RetryOne(id, pending, nextId, tick, max);
            IdsBelow(r.pending, r.nextId) && Aged(r.pending, tick)
    ensures var r := RetryOne(id, pending, nextId, tick, max);
            |r.pending| <= |pending| && forall i :: i in r.pending ==> i in pending || nextId <= i
  {
    if id in pending {
      assert (pending - {id}).Keys == pending.Keys - {id};
    }
  }

  lemma {:induction false} RetryKeeps<T>(ids: seq<RequestId>, pending: Pending<T>, nextId: RequestId, tick: nat,
      max: nat)
    requires IdsBelow(pending, nextId) && Aged(pending, tick)
    ensures var r := RetryAll(ids, pending, nextId, tick, max);
            IdsBelow(r.pending, r.nextId) && Aged(r.pending, tick)
    ensures var r := RetryAll(ids, pending, nextId, tick, max);
            |r.pending| <= |pending| && forall i :: i in r.pending ==> i in pending || nextId <= i
    decreases |ids|
  {
    if ids != [] {
      RetryOneKeeps(ids[0], pending, nextId, tick, max);
      var one := RetryOne(ids[0], pending, nextId, tick, max);
      RetryKeeps(ids[1..], one.pending, one.nextId, tick, max);
    }
  }

  lemma {:induction false} RetryKeepsDisjoint(ids: seq<RequestId>, pending: Pending<Span>, nextId: RequestId, tick: nat,
      max: nat)
    requires Disjoint(pending) && IdsBelow(pending, nextId) && Aged(pending, tick)
    ensures Disjoint(RetryAll(ids, pending, nextId, tick, max).pending)
    decreases |ids|
  {
    if ids != [] {
      RetryOneKeeps(ids[0], pending, nextId, tick, max);
      var one := RetryOne(ids[0], pending, nextId, tick, max);
      RetryKeepsDisjoint(ids[1..], one.pending, one.nextId, tick, max);
    }
  }

  lemma IssueKeepsDisjoint(pending: Pending<Span>, id: RequestId, spans: seq<Span>, peer: PeerId, tick: nat, start: nat,
      r: Pending<Span>)
    requires Disjoint(pending) && IdsBelow(pending, id)
    requires forall i :: i in pending ==> pending[i].what.start + pending[i].what.count <= start
    requires forall i :: 0 <= i < |spans| ==> start <= spans[i].start
    requires forall i, j :: 0 <= i < j < |spans| ==> spans[i].start + spans[i].count <= spans[j].start
    requires Issued(pending, id, spans, peer, tick, r)
    ensures Disjoint(r)
  {
    forall i, j | i in r && j in r && i < j
      ensures Apart(r[i].what, r[j].what)
    {
      if j >= id {
        assert r[j].what == spans[j - id];
        if i >= id { assert r[i].what == spans[i - id]; }
      }
    }
  }

  lemma PollKeepsSound(c: Config, s: State)
    requires Sound(c, s)
    ensures Sound(c, PollHeaders(c, s).0)
  {
    var spans := SpansToIssue(c, s);
    if spans != [] {
      var peer := s.target.value.peer;
      NewSpansShape(FirstFree(s), s.target.value.bestBlock, c.headersPerRequest,
                    SaturatingSub(c.maxHeaderRequests, |s.headerRequests|));
      IssueAdds(s.headerRequests, s.nextId, spans, peer, s.tick);
      IssueSize(s.headerRequests, s.nextId, spans, peer, s.tick);
      IssueKeepsDisjoint(s.headerRequests, s.nextId, spans, peer, s.tick, FirstFree(s),
                         Issue(s.headerRequests, s.nextId, spans, peer, s.tick));
    }
  }

  lemma PollBodiesKeepsSound(c: Config, s: State)
    requires Sound(c, s) && Possible(c, s, PollB)
    ensures Sound(c, PollBodies(c, s).0)
  {
    if s.phase.DownloadingBodies? {
      var chunks := Chunks(HashesToFetch(s.headers, BodyLimit(c, |s.bodyRequests|)), c.bodiesPerRequest);
      IssueAdds(s.bodyRequests, s.nextId, chunks, PeerOrEmpty(TargetPeer(s.target)), s.tick);
    }
  }

  lemma HeadersKeepSound(c: Config, s: State, ms: seq<HeaderMsg>)
    requires Sound(c, s)
    ensures Sound(c, OnHeaders(s, ms).0)
  {
    SubsetSize(OnHeaders(s, ms).0.headerRequests.Keys, s.headerRequests.Keys);
  }

  lemma TickKeepsSound(c: Config, s: State, hs: seq<RequestId>, bs: seq<RequestId>)
    requires Sound(c, s)
    ensures var t := Tick(c, s, hs, bs).0;
            && Sound(c, t) && |t.headerRequests| <= |s.headerRequests| && |t.bodyRequests| <= |s.bodyRequests|
            && s.nextId <= t.nextId
  {
    var now := s.tick + 1;
    RetryKeeps(hs, s.headerRequests, s.nextId, now, c.maxRetries);
    RetryKeepsDisjoint(hs, s.headerRequests, s.nextId, now, c.maxRetries);
    var h := RetryAll(hs, s.headerRequests, s.nextId, now, c.maxRetries);
    RetryKeeps(bs, s.bodyRequests, h.nextId, now, c.maxRetries);
  }

  lemma StepKeepsSound(c: Config, s: State, e: Event)
    requires Sound(c, s) && Possible(c, s, e)
    ensures Sound(c, Step(c, s, e))
    ensures s.nextId <= Step(c, s, e).nextId
  {
    match e
    case PollH => PollKeepsSound(c, s);
    case Ticked(hs, bs) => TickKeepsSound(c, s, hs, bs);
    case PollB => PollBodiesKeepsSound(c, s);
    case Headers(ms) => HeadersKeepSound(c, s, ms);
    case _ =>
  }

  /**
   On every run from a new engine: pending spans are pairwise disjoint, there are at most
   `maxHeaderRequests` of them, and every pending id was handed out before `nextId`, once.
   */
  lemma {:induction false} RunKeepsSound(c: Config, s: State, es: seq<Event>)
    requires Sound(c, s) && PossibleRun(c, s, es)
    ensures Sound(c, Run(c, s, es))
    ensures s.nextId <= Run(c, s, es).nextId
    decreases |es|
  {
    if es != [] {
      StepKeepsSound(c, s, es[0]);
      RunKeepsSound(c, Step(c, s, es[0]), es[1..]);
    }
  }

  lemma {:induction false} SpansDisjointOnEveryRun(c: Config, head: nat, es: seq<Event>)
    requires PossibleRun(c, Init(head), es)
    ensures var s := Run(c, Init(head), es);
            && |s.headerRequests| <= c.maxHeaderRequests
            && forall n, i, j :: i in s.headerRequests && j in s.headerRequests && i != j ==>
                 !(s.headerRequests[i].what.Covers(n) && s.headerRequests[j].what.Covers(n))
  {
    RunKeepsSound(c, Init(head), es);
  }
}

/**
 The header-first sync engine. `State` is what the engine stores; every operation of the engine is a
 function on `State`, and `SyncEngine` is the mutable object whose methods are proved to compute it.
 */
module Sync {
  import opened Wrappers
  import opened Arithmetic
  import opened OrderedKeys

  type RequestId = nat
  type Hash = nat
  type PeerId = string

  datatype Phase = Synced | DownloadingHeaders | DownloadingBodies | Verifying | Stalled

  datatype Target = Target(bestBlock: nat, bestHash: Hash, peer: PeerId)

  /** The block numbers `start .. start + count - 1`. */
  datatype Span = Span(start: nat, count: nat) {
    predicate Covers(n: nat) { start <= n < start + count }
  }

  /** A pending request: for a `Span` of headers, or for the bodies of some block hashes. */
  datatype Request<T> = Request(what: T, peer: PeerId, createdTick: nat, retries: nat)

  /** What the caller is told about a request that was just issued. */
  datatype Ticket<T> = Ticket(id: RequestId, what: T, peer: Option<PeerId>)

  datatype HeaderMsg = HeaderMsg(number: nat, hash: Hash, parentHash: Hash)

  datatype SyncedHeader =
    SyncedHeader(number: nat, hash: Hash, parentHash: Hash, bodyDownloaded: bool, verified: bool)

  datatype SyncError =
    | NoPeers
    | BrokenChain(atBlock: nat)
    | Timeout(requestId: RequestId)
    | MaxRetries(requestId: RequestId)

  datatype SyncResult =
    | HeadersQueued(count: nat)
    | BodiesMatched(matched: nat)
    | RangeVerified(from: nat, to: nat)
    | Error(error: SyncError)

  datatype Config = Config(headersPerRequest: nat, bodiesPerRequest: nat, timeoutTicks: nat,
                           maxRetries: nat, maxHeaderRequests: nat, maxBodyRequests: nat)

  type Headers = map<nat, SyncedHeader>
  type Pending<T> = map<RequestId, Request<T>>

  datatype State = State(
    phase: Phase,
    localHead: nat,
    target: Option<Target>,
    headers: Headers,
    headerRequests: Pending<Span>,
    bodyRequests: Pending<seq<Hash>>,
    nextId: RequestId,
    tick: nat,
    importReady: seq<nat>)

  function Init(localHead: nat): State {
    State(Synced, localHead, None, map[], map[], map[], 1, 0, [])
  }

  // ---------- Targets and the local head ----------

  function OnPeerStatus(s: State, peer: PeerId, bestBlock: nat, bestHash: Hash): State {
    if bestBlock <= s.localHead || (s.target.Some? && bestBlock <= s.target.value.bestBlock) then
      s
    else
      s.(target := Some(Target(bestBlock, bestHash, peer)),
         phase := if s.phase.Synced? then DownloadingHeaders else s.phase)
  }

  function Above(headers: Headers, head: nat): Headers {
    map n | n in headers && n > head :: headers[n]
  }

  function UpdateLocalHead(s: State, newHead: nat): State {
    var trimmed := s.(localHead := newHead, headers := Above(s.headers, newHead));
    if s.target.Some? && newHead >= s.target.value.bestBlock then
      trimmed.(phase := Synced, target := None)
    else
      trimmed
  }

  // ---------- Header requests ----------

  /** The greatest exclusive end of a pending span. */
  function HighestRequested(pending: Pending<Span>): (r: nat)
    ensures forall id :: id in pending ==> pending[id].what.start + pending[id].what.count <= r
    ensures pending == map[] ==> r == 0
  {
    var ends := set id | id in pending :: pending[id].what.start + pending[id].what.count;
    var r := GreatestOr0(ends);
    assert forall id :: id in pending ==> pending[id].what.start + pending[id].what.count in ends;
    r
  }

  /** Where the next span starts: an exclusive end is compared with an inclusive one, as the node does. */
  function FirstFree(s: State): nat {
    Max(Max(HighestRequested(s.headerRequests), GreatestOr0(s.headers.Keys)), s.localHead + 1)
  }

  function NewSpans(start: nat, target: nat, perRequest: nat, maxNew: nat): (r: seq<Span>)
    decreases maxNew
  {
    if maxNew == 0 || start > target then
      []
    else
      var count := Min(perRequest, target - start + 1);
      [Span(start, count)] + NewSpans(start + count, target, perRequest, maxNew - 1)
  }

  /** `pending` after inserting one fresh request for each of `whats`, numbered from `id`. */
  function Issue<T>(pending: Pending<T>, id: RequestId, whats: seq<T>, peer: PeerId, tick: nat): Pending<T>
    decreases |whats|
  {
    if whats == [] then
      pending
    else
      Issue(pending[id := Request(whats[0], peer, tick, 0)], id + 1, whats[1..], peer, tick)
  }

  function Tickets<T>(id: RequestId, whats: seq<T>, peer: Option<PeerId>): seq<Ticket<T>>
    decreases |whats|
  {
    if whats == [] then [] else [Ticket(id, whats[0], peer)] + Tickets(id + 1, whats[1..], peer)
  }

  function SpansToIssue(c: Config, s: State): seq<Span> {
    if s.phase.DownloadingHeaders? && s.target.Some? then
      NewSpans(FirstFree(s), s.target.value.bestBlock, c.headersPerRequest,
               SaturatingSub(c.maxHeaderRequests, |s.headerRequests|))
    else
      []
  }

  function PollHeaders(c: Config, s: State): (State, seq<Ticket<Span>>) {
    var spans := SpansToIssue(c, s);
    if spans == [] then (s, []) else
      var peer := s.target.value.peer;
      (s.(headerRequests := Issue(s.headerRequests, s.nextId, spans, peer, s.tick), nextId := s.nextId + |spans|),
       Tickets(s.nextId, spans, Some(peer)))
  }

  function Downloaded(m: HeaderMsg): SyncedHeader {
    SyncedHeader(m.number, m.hash, m.parentHash, false, false)
  }

  /** Duplicates are skipped: the first header stored under a number stays. */
  function InsertHeaders(headers: Headers, ms: seq<HeaderMsg>): Headers
    decreases |ms|
  {
    if ms == [] then
      headers
    else
      var h := if ms[0].number in headers then headers else headers[ms[0].number := Downloaded(ms[0])];
      InsertHeaders(h, ms[1..])
  }

  function DropStart(pending: Pending<Span>, start: nat): Pending<Span> {
    map id | id in pending && pending[id].what.start != start :: pending[id]
  }

  function OnHeaders(s: State, ms: seq<HeaderMsg>): (State, SyncResult) {
    if ms == [] then
      (s, HeadersQueued(0))
    else
      var pending := DropStart(s.headerRequests, ms[0].number);
      var headers := InsertHeaders(s.headers, ms);
      var haveAll := s.target.Some? && GreatestOr0(headers.Keys) >= s.target.value.bestBlock && pending == map[];
      (s.(headerRequests := pending, headers := headers, phase := if haveAll then DownloadingBodies else s.phase),
       HeadersQueued(|ms|))
  }

  // ---------- Body requests ----------

  function Missing(headers: Headers): seq<nat> {
    Ascending(set n | n in headers && !headers[n].bodyDownloaded)
  }

  function HashesOf(headers: Headers, ns: seq<nat>): (r: seq<Hash>)
    requires forall n :: n in ns ==> n in headers
    ensures |r| == |ns|
    ensures forall i :: 0 <= i < |ns| ==> r[i] == headers[ns[i]].hash
  {
    seq(|ns|, i requires 0 <= i < |ns| => headers[ns[i]].hash)
  }

  function Chunks<T>(s: seq<T>, n: nat): (r: seq<seq<T>>)
    requires n > 0
    ensures forall k :: 0 <= k < |r| ==> r[k] != []
    ensures s != [] <==> r != []
  {
    if s == [] then [] else if |s| <= n then [s] else [s[..n]] + Chunks(s[n..], n)
  }

  function Take<T>(s: seq<T>, n: nat): (r: seq<T>)
    ensures |r| == Min(|s|, n)
    ensures r <= s
    ensures forall x :: x in r ==> x in s
  {
    if n <= |s| then s[..n] else s
  }

  /** How many bodies may be asked for while `pending` requests are open. */
  function BodyLimit(c: Config, pending: nat): nat {
    SaturatingSub(c.maxBodyRequests, pending) * c.bodiesPerRequest
  }

  function HashesToFetch(headers: Headers, limit: nat): seq<Hash> {
    HashesOf(headers, Take(Missing(headers), limit))
  }

  function TargetPeer(target: Option<Target>): Option<PeerId> {
    if target.Some? then Some(target.value.peer) else None
  }

  /** `peer.unwrap_or_default()` */
  function PeerOrEmpty(peer: Option<PeerId>): PeerId {
    if peer.Some? then peer.value else ""
  }

  /** Splitting into chunks of size 0 panics in the node, hence the `requires`. */
  function PollBodies(c: Config, s: State): (State, seq<Ticket<seq<Hash>>>)
    requires s.phase.DownloadingBodies? ==> c.bodiesPerRequest > 0
  {
    if !s.phase.DownloadingBodies? then
      (s, [])
    else
      var chunks := Chunks(HashesToFetch(s.headers, BodyLimit(c, |s.bodyRequests|)), c.bodiesPerRequest);
      var peer := TargetPeer(s.target);
      (s.(bodyRequests := Issue(s.bodyRequests, s.nextId, chunks, PeerOrEmpty(peer), s.tick),
          nextId := s.nextId + |chunks|),
       Tickets(s.nextId, chunks, peer))
  }

  predicate Wants(headers: Headers, hash: Hash, n: nat) {
    n in headers && headers[n].hash == hash && !headers[n].bodyDownloaded
  }

  function Wanting(headers: Headers, hash: Hash): set<nat> {
    set n | n in headers && Wants(headers, hash, n)
  }

  /** Several headers could be completed by a body with this hash; the lowest one gets it. */
  function Taker(headers: Headers, hash: Hash): Option<nat> {
    var ns := Wanting(headers, hash);
    if ns == {} then None else Some(Least(ns))
  }

  function Mark(headers: Headers, taker: Option<nat>): Headers
    requires taker.Some? ==> taker.value in headers
  {
    if taker.None? then headers else headers[taker.value := headers[taker.value].(bodyDownloaded := true)]
  }

  function MarkBodies(headers: Headers, hashes: seq<Hash>): (Headers, nat)
    decreases |hashes|
  {
    if hashes == [] then
      (headers, 0)
    else
      var taker := Taker(headers, hashes[0]);
      var (h, k) := MarkBodies(Mark(headers, taker), hashes[1..]);
      (h, k + if taker.None? then 0 else 1)
  }

  function DropAnswered(pending: Pending<seq<Hash>>, hashes: seq<Hash>): Pending<seq<Hash>> {
    map id | id in pending && !(forall h :: h in pending[id].what ==> h in hashes) :: pending[id]
  }

  predicate AllDownloaded(headers: Headers) {
    forall n :: n in headers ==> headers[n].bodyDownloaded
  }

  function OnBodies(s: State, hashes: seq<Hash>): (State, SyncResult) {
    var (headers, matched) := MarkBodies(s.headers, hashes);
    var pending := DropAnswered(s.bodyRequests, hashes);
    var done := AllDownloaded(headers) && pending == map[] && headers != map[];
    (s.(headers := headers, bodyRequests := pending, phase := if done then Verifying else s.phase),
     BodiesMatched(matched))
  }

  // ---------- Verification ----------

  predicate Linked(headers: Headers, a: nat, b: nat)
    requires a in headers && b in headers
  {
    b == a + 1 && headers[b].parentHash == headers[a].hash
  }

  /** The first position `>= i` of `ns` whose header does not link to the next one, or the last position. */
  function FirstUnlinked(headers: Headers, ns: seq<nat>, i: nat): (r: nat)
    requires i < |ns|
    requires forall n :: n in ns ==> n in headers
    ensures i <= r < |ns|
    decreases |ns| - i
  {
    if i + 1 < |ns| && Linked(headers, ns[i], ns[i + 1]) then FirstUnlinked(headers, ns, i + 1) else i
  }

  lemma {:induction false} FirstUnlinkedIsFirst(headers: Headers, ns: seq<nat>, i: nat)
    requires i < |ns|
    requires forall n :: n in ns ==> n in headers
    ensures var r := FirstUnlinked(headers, ns, i);
            && (forall j, k :: i <= j < r && k == j + 1 ==> Linked(headers, ns[j], ns[k]))
            && (r + 1 < |ns| ==> !Linked(headers, ns[r], ns[r + 1]))
    decreases |ns| - i
  {
    if i + 1 < |ns| && Linked(headers, ns[i], ns[i + 1]) {
      FirstUnlinkedIsFirst(headers, ns, i + 1);
    }
  }

  /** The number of the first header that does not link to the one before it. */
  function FirstBroken(headers: Headers, ns: seq<nat>): Option<nat>
    requires ns != []
    requires forall n :: n in ns ==> n in headers
  {
    var r := FirstUnlinked(headers, ns, 0);
    if r + 1 < |ns| then Some(ns[r + 1]) else None
  }

  function MarkVerified(headers: Headers): Headers {
    map n | n in headers :: headers[n].(verified := true)
  }

  function VerifyChain(s: State): (State, SyncResult) {
    var ns := Ascending(s.headers.Keys);
    if ns == [] then
      (s, Error(NoPeers))
    else
      var broken := FirstBroken(s.headers, ns);
      if broken.Some? then
        (s, Error(BrokenChain(broken.value)))
      else
        (s.(headers := MarkVerified(s.headers),
            importReady := s.importReady + ns,
            phase := Synced),
         RangeVerified(ns[0], ns[|ns| - 1]))
  }

  // ---------- Timeouts ----------

  function TimedOut<T>(pending: Pending<T>, tick: nat, timeout: nat): set<RequestId> {
    set id | id in pending && tick - pending[id].createdTick > timeout
  }

  datatype Retried<T> = Retried(pending: Pending<T>, nextId: RequestId, results: seq<SyncResult>)

  /** Report one timed-out request, and re-queue it under a new id unless its retries are spent. */
  function RetryOne<T>(id: RequestId, pending: Pending<T>, nextId: RequestId, tick: nat, maxRetries: nat)
    : (r: Retried<T>)
    ensures nextId <= r.nextId
  {
    if id !in pending then
      Retried(pending, nextId, [])
    else
      var req := pending[id];
      if req.retries + 1 > maxRetries then
        Retried(pending - {id}, nextId, [Error(MaxRetries(id))])
      else
        var again := req.(retries := req.retries + 1, createdTick := tick);
        Retried((pending - {id})[nextId := again], nextId + 1, [Error(Timeout(id))])
  }

  function Prepend<T>(results: seq<SyncResult>, r: Retried<T>): Retried<T> {
    r.(results := results + r.results)
  }

  function RetryAll<T>(ids: seq<RequestId>, pending: Pending<T>, nextId: RequestId, tick: nat, maxRetries: nat)
    : (r: Retried<T>)
    ensures nextId <= r.nextId
    decreases |ids|
  {
    if ids == [] then
      Retried(pending, nextId, [])
    else
      var one := RetryOne(ids[0], pending, nextId, tick, maxRetries);
      Prepend(one.results, RetryAll(ids[1..], one.pending, one.nextId, tick, maxRetries))
  }

  /** `hs` and `bs` are the orders in which the two hash maps happen to be walked. */
  function Tick(c: Config, s: State, hs: seq<RequestId>, bs: seq<RequestId>): (State, seq<SyncResult>) {
    var now := s.tick + 1;
    var h := RetryAll(hs, s.headerRequests, s.nextId, now, c.maxRetries);
    var b := RetryAll(bs, s.bodyRequests, h.nextId, now, c.maxRetries);
    var stalled := !s.phase.Synced? && h.pending == map[] && b.pending == map[] && s.headers == map[] && s.target.Some?;
    (s.(tick := now, headerRequests := h.pending, bodyRequests := b.pending, nextId := b.nextId,
        phase := if stalled then Stalled else s.phase),
     h.results + b.results)
  }

  ghost predicate TickOrders(c: Config, s: State, hs: seq<RequestId>, bs: seq<RequestId>) {
    && IsOrder(hs, TimedOut(s.headerRequests, s.tick + 1, c.timeoutTicks))
    && IsOrder(bs, TimedOut(s.bodyRequests, s.tick + 1, c.timeoutTicks))
  }

  // ---------- The engine ----------

  class SyncEngine {
    const config: Config
    var phase: Phase
    var localHead: nat
    var target: Option<Target>
    var headers: Headers
    var headerRequests: Pending<Span>
    var bodyRequests: Pending<seq<Hash>>
    var nextId: RequestId
    var tick: nat
    var importReady: seq<nat>

    function View(): State
      reads this
    {
      State(phase, localHead, target, headers, headerRequests, bodyRequests, nextId, tick, importReady)
    }

    constructor (head: nat, cfg: Config)
      ensures View() == Init(head) && config == cfg
    {
      config := cfg;
      phase, localHead, target := Synced, head, None;
      headers, headerRequests, bodyRequests := map[], map[], map[];
      nextId, tick, importReady := 1, 0, [];
    }

    method DrainImportReady() returns (ready: seq<nat>)
      modifies this`importReady
      ensures ready == old(importReady) && importReady == []
    {
      ready := importReady;
      importReady := [];
    }

    method PeerStatus(peer: PeerId, bestBlock: nat, bestHash: Hash)
      modifies this`target, this`phase
      ensures View() == OnPeerStatus(old(View()), peer, bestBlock, bestHash)
    {
      if bestBlock <= localHead {
        return;
      }
      var shouldUpdate := target.None? || bestBlock > target.value.bestBlock;
      if shouldUpdate {
        target := Some(Target(bestBlock, bestHash, peer));
        if phase.Synced? {
          phase := DownloadingHeaders;
        }
      }
    }

    method SetLocalHead(newHead: nat)
      modifies this`localHead, this`headers, this`phase, this`target
      ensures View() == UpdateLocalHead(old(View()), newHead)
    {
      localHead := newHead;
      headers := RemoveUpTo(headers, newHead);
      if target.Some? && newHead >= target.value.bestBlock {
        phase := Synced;
        target := None;
      }
    }

    method PollHeaderRequests() returns (requests: seq<Ticket<Span>>)
      modifies this`headerRequests, this`nextId
      ensures (View(), requests) == PollHeaders(config, old(View()))
    {
      requests := [];
      if phase != DownloadingHeaders || target.None? {
        return;
      }
      var targetBlock := target.value.bestBlock;
      var maxNew := SaturatingSub(config.maxHeaderRequests, |headerRequests|);
      headerRequests, nextId, requests :=
        IssueSpans(headerRequests, nextId, FirstFree(View()), targetBlock, config.headersPerRequest, maxNew,
                   target.value.peer, tick);
    }

    method HeadersReceived(ms: seq<HeaderMsg>) returns (r: SyncResult)
      modifies this`headerRequests, this`headers, this`phase
      ensures View() == OnHeaders(old(View()), ms).0
      ensures r == OnHeaders(old(View()), ms).1
    {
      if |ms| == 0 {
        return HeadersQueued(0);
      }
      headerRequests := DropStart(headerRequests, ms[0].number);
      headers := StoreHeaders(headers, ms);
      if target.Some? {
        var haveAll := GreatestOr0(headers.Keys) >= target.value.bestBlock;
        if haveAll && headerRequests == map[] {
          phase := DownloadingBodies;
        }
      }
      r := HeadersQueued(|ms|);
    }

    method PollBodyRequests() returns (requests: seq<Ticket<seq<Hash>>>)
      requires phase.DownloadingBodies? ==> config.bodiesPerRequest > 0
      modifies this`bodyRequests, this`nextId
      ensures View() == PollBodies(config, old(View())).0
      ensures requests == PollBodies(config, old(View())).1
    {
      requests := [];
      if phase != DownloadingBodies {
        return;
      }
      var limit := BodyLimit(config, |bodyRequests|);
      var chunks := Chunks(HashesToFetch(headers, limit), config.bodiesPerRequest);
      bodyRequests, nextId, requests := IssueChunks(bodyRequests, nextId, chunks, TargetPeer(target), tick);
    }

    method BodiesReceived(hashes: seq<Hash>) returns (r: SyncResult)
      modifies this`headers, this`bodyRequests, this`phase
      ensures View() == OnBodies(old(View()), hashes).0
      ensures r == OnBodies(old(View()), hashes).1
    {
      var matched;
      headers, matched := MatchBodies(headers, hashes);
      bodyRequests := DropAnswered(bodyRequests, hashes);
      if AllDownloaded(headers) && bodyRequests == map[] && headers != map[] {
        phase := Verifying;
      }
      r := BodiesMatched(matched);
    }

    method Verify() returns (r: SyncResult)
      modifies this`headers, this`importReady, this`phase
      ensures View() == VerifyChain(old(View())).0
      ensures r == VerifyChain(old(View())).1
    {
      var ns := Ascending(headers.Keys);
      if ns == [] {
        return Error(NoPeers);
      }
      var broken := CheckLinks(headers, ns);
      if broken.Some? {
        return Error(BrokenChain(broken.value));
      }
      headers := MarkVerified(headers);
      importReady := importReady + ns;
      phase := Synced;
      r := RangeVerified(ns[0], ns[|ns| - 1]);
    }

    method AdvanceTick() returns (results: seq<SyncResult>)
      modifies this`tick, this`headerRequests, this`bodyRequests, this`nextId, this`phase
      ensures exists hs, bs :: TickOrders(config, old(View()), hs, bs)
                            && (View(), results) == Tick(config, old(View()), hs, bs)
    {
      tick := tick + 1;
      var hs := CollectTimedOut(headerRequests, tick, config.timeoutTicks);
      var bs;
      var hr, br;
      headerRequests, nextId, hr := RetryTimedOut(hs, headerRequests, nextId, tick, config.maxRetries);
      bs := CollectTimedOut(bodyRequests, tick, config.timeoutTicks);
      bodyRequests, nextId, br := RetryTimedOut(bs, bodyRequests, nextId, tick, config.maxRetries);
      results := hr + br;
      if phase != Synced && headerRequests == map[] && bodyRequests == map[] && headers == map[] && target.Some? {
        phase := Stalled;
      }
      assert TickOrders(config, old(View()), hs, bs);
      assert (View(), results) == Tick(config, old(View()), hs, bs);
    }
  }

  // ---------- The loops, on the values they update ----------

  /** `update_local_head`: collect the numbers up to the new head, then remove them one by one. */
  method RemoveUpTo(headers0: Headers, newHead: nat) returns (headers: Headers)
    ensures headers == Above(headers0, newHead)
  {
    headers := headers0;
    var toRemove := Ascending(set n | n in headers0 && n <= newHead);
    var i := 0;
    while i < |toRemove|
      invariant 0 <= i <= |toRemove|
      invariant forall n :: n in headers ==> n in headers0 && headers[n] == headers0[n]
      invariant forall n :: n in headers0 && n !in headers ==> n in toRemove
      invariant forall j :: 0 <= j < i ==> toRemove[j] !in headers
    {
      headers := headers - {toRemove[i]};
      i := i + 1;
    }
    assert forall n :: n in headers ==> n !in toRemove;
  }

  /** `poll_header_requests`: issue up to `maxNew` consecutive spans, stopping past the target. */
  method IssueSpans(pending0: Pending<Span>, nextId0: RequestId, start0: nat, target: nat, perRequest: nat,
                    maxNew: nat, peer: PeerId, tick: nat)
    returns (pending: Pending<Span>, nextId: RequestId, requests: seq<Ticket<Span>>)
    ensures var spans := NewSpans(start0, target, perRequest, maxNew);
            && pending == Issue(pending0, nextId0, spans, peer, tick)
            && nextId == nextId0 + |spans|
            && requests == Tickets(nextId0, spans, Some(peer))
  {
    pending, nextId, requests := pending0, nextId0, [];
    var start: nat := start0;
    ghost var all := NewSpans(start0, target, perRequest, maxNew);
    ghost var rest := all;
    var k := 0;
    while k < maxNew && start <= target
      invariant 0 <= k <= maxNew
      invariant rest == NewSpans(start, target, perRequest, maxNew - k)
      invariant Issue(pending, nextId, rest, peer, tick) == Issue(pending0, nextId0, all, peer, tick)
      invariant requests + Tickets(nextId, rest, Some(peer)) == Tickets(nextId0, all, Some(peer))
      invariant nextId + |rest| == nextId0 + |all|
    {
      var count := Min(perRequest, target - start + 1);
      pending := pending[nextId := Request(Span(start, count), peer, tick, 0)];
      requests := requests + [Ticket(nextId, Span(start, count), Some(peer))];
      assert rest[0] == Span(start, count);
      rest := rest[1..];
      nextId := nextId + 1;
      start := start + count;
      k := k + 1;
    }
    assert rest == [];
    assert requests + Tickets(nextId, rest, Some(peer)) == requests;
  }

  /** `poll_body_requests`: issue one request per chunk. */
  method IssueChunks(pending0: Pending<seq<Hash>>, nextId0: RequestId, chunks: seq<seq<Hash>>,
                     peer: Option<PeerId>, tick: nat)
    returns (pending: Pending<seq<Hash>>, nextId: RequestId, requests: seq<Ticket<seq<Hash>>>)
    ensures pending == Issue(pending0, nextId0, chunks, PeerOrEmpty(peer), tick)
    ensures nextId == nextId0 + |chunks|
    ensures requests == Tickets(nextId0, chunks, peer)
  {
    pending, nextId, requests := pending0, nextId0, [];
    var i := 0;
    assert chunks[0..] == chunks;
    while i < |chunks|
      invariant 0 <= i <= |chunks|
      invariant Issue(pending, nextId, chunks[i..], PeerOrEmpty(peer), tick) ==
                Issue(pending0, nextId0, chunks, PeerOrEmpty(peer), tick)
      invariant requests + Tickets(nextId, chunks[i..], peer) == Tickets(nextId0, chunks, peer)
      invariant nextId == nextId0 + i
    {
      pending := pending[nextId := Request(chunks[i], PeerOrEmpty(peer), tick, 0)];
      requests := requests + [Ticket(nextId, chunks[i], peer)];
      nextId := nextId + 1;
      assert chunks[i..][1..] == chunks[i + 1..];
      i := i + 1;
    }
    assert requests + Tickets(nextId, chunks[i..], peer) == requests;
  }

  /** `on_headers_received`: store what is not stored yet. */
  method StoreHeaders(headers0: Headers, ms: seq<HeaderMsg>) returns (headers: Headers)
    ensures headers == InsertHeaders(headers0, ms)
  {
    headers := headers0;
    var i := 0;
    assert ms[0..] == ms;
    while i < |ms|
      invariant 0 <= i <= |ms|
      invariant InsertHeaders(headers, ms[i..]) == InsertHeaders(headers0, ms)
    {
      if ms[i].number !in headers {
        headers := headers[ms[i].number := Downloaded(ms[i])];
      }
      assert ms[i..][1..] == ms[i + 1..];
      i := i + 1;
    }
  }

  lemma TakerFound(headers: Headers, hash: Hash, ns: seq<nat>, j: nat)
    requires Increasing(ns) && forall n :: n in ns <==> n in headers
    requires j < |ns| && Wants(headers, hash, ns[j])
    requires forall k :: 0 <= k < j ==> !Wants(headers, hash, ns[k])
    ensures Taker(headers, hash) == Some(ns[j])
  {
    assert ns[j] in Wanting(headers, hash);
    forall n | n in Wanting(headers, hash)
      ensures ns[j] <= n
    {
      assert n in ns;
    }
  }

  /** The inner loop of `on_bodies_received`: scan the headers in order for the first that wants the body. */
  method FindTaker(headers: Headers, hash: Hash) returns (taker: Option<nat>)
    ensures taker == Taker(headers, hash)
  {
    var ns := Ascending(headers.Keys);
    var j := 0;
    while j < |ns|
      invariant 0 <= j <= |ns|
      invariant forall k :: 0 <= k < j ==> !Wants(headers, hash, ns[k])
    {
      if Wants(headers, hash, ns[j]) {
        TakerFound(headers, hash, ns, j);
        return Some(ns[j]);
      }
      j := j + 1;
    }
    assert forall n :: n in Wanting(headers, hash) ==> n in ns;
    taker := None;
  }

  method MatchBodies(headers0: Headers, hashes: seq<Hash>) returns (headers: Headers, matched: nat)
    ensures headers == MarkBodies(headers0, hashes).0
    ensures matched == MarkBodies(headers0, hashes).1
  {
    headers, matched := headers0, 0;
    var i := 0;
    assert hashes[0..] == hashes;
    while i < |hashes|
      invariant 0 <= i <= |hashes|
      invariant MarkBodies(headers0, hashes).0 == MarkBodies(headers, hashes[i..]).0
      invariant MarkBodies(headers0, hashes).1 == matched + MarkBodies(headers, hashes[i..]).1
    {
      var taker := FindTaker(headers, hashes[i]);
      assert hashes[i..][1..] == hashes[i + 1..];
      headers := Mark(headers, taker);
      if taker.Some? {
        matched := matched + 1;
      }
      i := i + 1;
    }
  }

  /** `verify_chain`: walk the windows of two; the number of the first header that does not link, if any. */
  method CheckLinks(headers: Headers, ns: seq<nat>) returns (broken: Option<nat>)
    requires ns != []
    requires forall n :: n in ns ==> n in headers
    ensures broken == FirstBroken(headers, ns)
  {
    var i := 0;
    while i + 1 < |ns|
      invariant 0 <= i < |ns|
      invariant FirstUnlinked(headers, ns, i) == FirstUnlinked(headers, ns, 0)
    {
      if !Linked(headers, ns[i], ns[i + 1]) {
        return Some(ns[i + 1]);
      }
      i := i + 1;
    }
    broken := None;
  }

  /** The first loop over a hash map in `tick`: the order of `ids` is whatever the map yields. */
  method CollectTimedOut<T>(pending: Pending<T>, tick: nat, timeout: nat) returns (ids: seq<RequestId>)
    ensures IsOrder(ids, TimedOut(pending, tick, timeout))
  {
    ids := [];
    var todo := pending.Keys;
    while todo != {}
      invariant todo <= pending.Keys
      invariant Distinct(ids)
      invariant forall id :: id in ids <==> id in TimedOut(pending, tick, timeout) && id !in todo
      decreases todo
    {
      var id :| id in todo;
      todo := todo - {id};
      if tick - pending[id].createdTick > timeout {
        ids := ids + [id];
      }
    }
  }

  method RetryTimedOut<T>(ids: seq<RequestId>, pending0: Pending<T>, nextId0: RequestId, tick: nat, maxRetries: nat)
    returns (pending: Pending<T>, nextId: RequestId, results: seq<SyncResult>)
    ensures Retried(pending, nextId, results) == RetryAll(ids, pending0, nextId0, tick, maxRetries)
  {
    pending, nextId, results := pending0, nextId0, [];
    var i := 0;
    assert ids[0..] == ids;
    while i < |ids|
      invariant 0 <= i <= |ids|
      invariant RetryAll(ids, pending0, nextId0, tick, maxRetries) ==
                Prepend(results, RetryAll(ids[i..], pending, nextId, tick, maxRetries))
    {
      var id := ids[i];
      ghost var one := RetryOne(id, pending, nextId, tick, maxRetries);
      ghost var rest := RetryAll(ids[i + 1..], one.pending, one.nextId, tick, maxRetries);
      assert RetryAll(ids[i..], pending, nextId, tick, maxRetries) == Prepend(one.results, rest) by {
        assert ids[i..][1..] == ids[i + 1..];
      }
      assert Prepend(results, Prepend(one.results, rest)) == Prepend(results + one.results, rest) by {
        assert results + (one.results + rest.results) == (results + one.results) + rest.results;
      }
      if id in pending {
        var req := pending[id];
        pending := pending - {id};
        req := req.(retries := req.retries + 1);
        if req.retries > maxRetries {
          results := results + [Error(MaxRetries(id))];
        } else {
          req := req.(createdTick := tick);
          pending := pending[nextId := req];
          nextId := nextId + 1;
          results := results + [Error(Timeout(id))];
        }
      } else {
        assert results == results + one.results;
      }
      i := i + 1;
    }
  }
}

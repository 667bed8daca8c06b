/**
 Progress against an honest peer. In a round the engine is polled once and each ticket it returns is
 answered in full, in any order. The number of header rounds and of body rounds that finish the sync is
 determined exactly, and so is the configuration in which the header rounds never finish.
 */
module SyncRounds {
  import opened Wrappers
  import opened Arithmetic
  import opened OrderedKeys
  import opened Sync
  import opened SyncRuns
  import opened SyncTickets
  import opened SyncCoverage

  /** The honest chain: the hash of each block number. */
  type Chain = nat -> Hash

  function HonestMsg(chain: Chain, n: nat): HeaderMsg {
    HeaderMsg(n, chain(n), if n == 0 then 0 else chain(n - 1))
  }

  function Reply(chain: Chain, span: Span): (r: seq<HeaderMsg>)
    ensures |r| == span.count
    ensures forall i :: 0 <= i < |r| ==> r[i] == HonestMsg(chain, span.start + i)
    ensures Answers(r, span)
  {
    seq(span.count, i requires i >= 0 => HonestMsg(chain, span.start + i))
  }

  // ---------- Header rounds ----------

  /** Answer the tickets one after the other: a peer knows no more of a request than its ticket says. */
  ghost function AnswerHeaders(s: State, order: seq<Ticket<Span>>, chain: Chain): State
    decreases |order|
  {
    if order == [] then s else AnswerHeaders(OnHeaders(s, Reply(chain, order[0].what)).0, order[1..], chain)
  }

  ghost function HeaderRound(c: Config, s: State, order: seq<Ticket<Span>>, chain: Chain): State {
    AnswerHeaders(PollHeaders(c, s).0, order, chain)
  }

  /** In every round each ticket the poll returns is answered once, in whatever order. */
  ghost predicate HeaderRoundsLegal(c: Config, s: State, orders: seq<seq<Ticket<Span>>>, chain: Chain)
    decreases |orders|
  {
    orders == [] ||
    (IsOrder(orders[0], SetOf(PollHeaders(c, s).1)) &&
     HeaderRoundsLegal(c, HeaderRound(c, s, orders[0], chain), orders[1..], chain))
  }

  ghost function HeaderRounds(c: Config, s: State, orders: seq<seq<Ticket<Span>>>, chain: Chain): State
    decreases |orders|
  {
    if orders == [] then s else HeaderRounds(c, HeaderRound(c, s, orders[0], chain), orders[1..], chain)
  }

  ghost predicate Honest(headers: Headers, chain: Chain) {
    forall n :: n in headers ==> headers[n] == Downloaded(HonestMsg(chain, n))
  }

  ghost predicate HonestBetween(headers: Headers, chain: Chain, lo: nat, end: nat) {
    (forall n :: n in headers ==> lo < n < end) && Honest(headers, chain)
  }

  /** Between header rounds: exactly the numbers above the local head and up to `f` are stored. */
  ghost predicate AtFrontier(s: State, chain: Chain, f: nat) {
    && s.target.Some? && s.localHead < s.target.value.bestBlock && s.localHead <= f <= s.target.value.bestBlock
    && s.phase == (if f == s.target.value.bestBlock then DownloadingBodies else DownloadingHeaders)
    && s.headerRequests == map[] && s.bodyRequests == map[] && s.importReady == []
    && (forall n: nat :: n in s.headers <==> s.localHead < n <= f)
    && Honest(s.headers, chain)
  }

  /** Within a header round: the numbers above the local head and below `end` are stored or pending. */
  ghost predicate Answering(s: State, chain: Chain, end: nat) {
    && s.target.Some? && s.localHead < s.target.value.bestBlock && s.localHead + 1 < end <= s.target.value.bestBlock + 1
    && s.phase == DownloadingHeaders && s.bodyRequests == map[] && s.importReady == []
    && Disjoint(s.headerRequests)
    && (forall id :: id in s.headerRequests ==>
          var w := s.headerRequests[id].what; 0 < w.count && s.localHead < w.start && w.start + w.count <= end)
    && (forall n: nat :: s.localHead < n < end ==> n in s.headers || Pends(s.headerRequests, n))
    && HonestBetween(s.headers, chain, s.localHead, end)
  }

  lemma DropsOnlyAnswered(pending: Pending<Span>, id: RequestId)
    requires Disjoint(pending) && id in pending
    requires forall i :: i in pending ==> 0 < pending[i].what.count
    ensures DropStart(pending, pending[id].what.start) == pending - {id}
  {
    forall i | i in pending && i != id
      ensures pending[i].what.start != pending[id].what.start
    {
      assert Apart(pending[i].what, pending[id].what);
    }
  }

  lemma AnswerKeepsCover(s: State, id: RequestId, chain: Chain, end: nat)
    requires Answering(s, chain, end) && id in s.headerRequests
    ensures var headers := InsertHeaders(s.headers, Reply(chain, s.headerRequests[id].what));
            forall n: nat :: s.localHead < n < end ==> n in headers || Pends(s.headerRequests - {id}, n)
  {
    var span := s.headerRequests[id].what;
    var ms := Reply(chain, span);
    DropsOnlyAnswered(s.headerRequests, id);
    InsertedKeys(s.headers, ms);
    forall n: nat | s.localHead < n < end
      ensures n in InsertHeaders(s.headers, ms) || Pends(s.headerRequests - {id}, n)
    {
      if span.Covers(n) {
        assert ms[n - span.start].number == n;
      } else if Pends(s.headerRequests, n) {
        DropUncovers(s.headerRequests, id, n);
      }
    }
  }

  /** The engine after one full answer: the request is gone, the headers are stored, the phase may change. */
  ghost function Answered(s: State, id: RequestId, chain: Chain): State
    requires id in s.headerRequests && s.target.Some?
  {
    var pending := s.headerRequests - {id};
    var headers := InsertHeaders(s.headers, Reply(chain, s.headerRequests[id].what));
    var done := pending == map[] && GreatestOr0(headers.Keys) >= s.target.value.bestBlock;
    s.(headerRequests := pending, headers := headers, phase := if done then DownloadingBodies else s.phase)
  }

  lemma OnReply(s: State, id: RequestId, chain: Chain, end: nat)
    requires Answering(s, chain, end) && id in s.headerRequests
    ensures OnHeaders(s, Reply(chain, s.headerRequests[id].what)).0 == Answered(s, id, chain)
  {
    DropsOnlyAnswered(s.headerRequests, id);
  }

  lemma {:induction false} InsertKeepsHonest(headers: Headers, ms: seq<HeaderMsg>, chain: Chain, lo: nat, end: nat)
    requires HonestBetween(headers, chain, lo, end)
    requires forall i :: 0 <= i < |ms| ==> lo < ms[i].number < end && ms[i] == HonestMsg(chain, ms[i].number)
    ensures HonestBetween(InsertHeaders(headers, ms), chain, lo, end)
    decreases |ms|
  {
    if ms != [] {
      var h := if ms[0].number in headers then headers else headers[ms[0].number := Downloaded(ms[0])];
      InsertKeepsHonest(h, ms[1..], chain, lo, end);
    }
  }

  lemma {:induction false} ReplyKeepsHonest(headers: Headers, span: Span, chain: Chain, lo: nat, end: nat)
    requires HonestBetween(headers, chain, lo, end)
    requires lo < span.start && span.start + span.count <= end
    ensures HonestBetween(InsertHeaders(headers, Reply(chain, span)), chain, lo, end)
  {
    InsertKeepsHonest(headers, Reply(chain, span), chain, lo, end);
  }

  lemma GreatestOfInterval(keys: set<nat>, lo: nat, hi: nat)
    requires lo < hi && forall n: nat :: n in keys <==> lo < n <= hi
    ensures GreatestOr0(keys) == hi
  {
    assert hi in keys;
  }

  lemma AnswerLast(s: State, id: RequestId, chain: Chain, end: nat)
    requires Answering(s, chain, end) && id in s.headerRequests && s.headerRequests - {id} == map[]
    ensures AtFrontier(Answered(s, id, chain), chain, end - 1)
  {
    var t := Answered(s, id, chain);
    AnswerKeepsCover(s, id, chain, end);
    ReplyKeepsHonest(s.headers, s.headerRequests[id].what, chain, s.localHead, end);
    forall n: nat
      ensures n in t.headers <==> s.localHead < n <= end - 1
    {
      assert !Pends(t.headerRequests, n);
    }
    GreatestOfInterval(t.headers.Keys, s.localHead, end - 1);
  }

  lemma AnswerMore(s: State, id: RequestId, chain: Chain, end: nat)
    requires Answering(s, chain, end) && id in s.headerRequests && s.headerRequests - {id} != map[]
    ensures Answering(Answered(s, id, chain), chain, end)
  {
    AnswerKeepsCover(s, id, chain, end);
    ReplyKeepsHonest(s.headers, s.headerRequests[id].what, chain, s.localHead, end);
  }

  lemma {:induction false} AnswerEvery(s: State, order: seq<Ticket<Span>>, chain: Chain, end: nat)
    requires Answering(s, chain, end) && order != [] && Outstanding(order, s.headerRequests)
    ensures var t := AnswerHeaders(s, order, chain);
            AtFrontier(t, chain, end - 1) && t.localHead == s.localHead && t.target == s.target
    decreases |order|
  {
    var id := order[0].id;
    OutstandingTail(order, s.headerRequests);
    OnReply(s, id, chain, end);
    var t := OnHeaders(s, Reply(chain, order[0].what)).0;
    if order[1..] != [] {
      AnswerMore(s, id, chain, end);
      AnswerEvery(t, order[1..], chain, end);
    } else {
      AnswerLast(s, id, chain, end);
    }
  }

  /** One round asks for `headersPerRequest * maxHeaderRequests` numbers, cut off at the target. */
  lemma {:induction false} NewSpansTotal(start: nat, target: nat, perRequest: nat, maxNew: nat)
    requires perRequest > 0 && start <= target + 1
    ensures var r := NewSpans(start, target, perRequest, maxNew);
            && End(start, r) == Min(target + 1, start + perRequest * maxNew)
            && (forall i :: 0 <= i < |r| ==> 0 < r[i].count)
            && (maxNew > 0 && start <= target ==> r != [])
    decreases maxNew
  {
    if maxNew > 0 && start <= target {
      var count := Min(perRequest, target - start + 1);
      var rest := NewSpans(start + count, target, perRequest, maxNew - 1);
      NewSpansTotal(start + count, target, perRequest, maxNew - 1);
      assert NewSpans(start, target, perRequest, maxNew) == [Span(start, count)] + rest;
      assert perRequest * maxNew == perRequest + perRequest * (maxNew - 1);
    } else {
      assert maxNew == 0 ==> perRequest * maxNew == 0;
      assert perRequest * maxNew >= 0;
    }
  }

  /** The frontier after one more round: the first round starts at the local head + 1, later ones at the frontier. */
  function NextFrontier(perRound: nat, head: nat, target: nat, f: nat): nat
    requires perRound > 0 && head <= f <= target && head < target
  {
    Min(target, (if f > head then f else head + 1) + perRound - 1)
  }

  function PerRound(c: Config): (r: nat)
    ensures c.headersPerRequest > 0 && c.maxHeaderRequests > 0 ==> r > 0
  {
    c.headersPerRequest * c.maxHeaderRequests
  }

  lemma FirstFreeAtFrontier(s: State, chain: Chain, f: nat)
    requires AtFrontier(s, chain, f)
    ensures FirstFree(s) == if f > s.localHead then f else s.localHead + 1
  {
    if f > s.localHead {
      GreatestOfInterval(s.headers.Keys, s.localHead, f);
    } else {
      assert s.headers.Keys == {};
    }
  }

  /** The spans are not empty and cover the numbers from `start` up to but excluding `end`, one after the other. */
  ghost predicate Tiles(spans: seq<Span>, start: nat, end: nat) {
    && (forall i :: 0 <= i < |spans| ==>
          start <= spans[i].start && spans[i].start + spans[i].count <= end && 0 < spans[i].count)
    && (forall i, j :: 0 <= i < j < |spans| ==> spans[i].start + spans[i].count <= spans[j].start)
    && (forall n: nat {:trigger CoveredBy(spans, n)} :: CoveredBy(spans, n) <==> start <= n < end)
  }

  lemma {:induction false} NewSpansTile(start: nat, target: nat, perRequest: nat, maxNew: nat)
    requires perRequest > 0 && start <= target + 1
    ensures var r := NewSpans(start, target, perRequest, maxNew); Tiles(r, start, End(start, r))
  {
    NewSpansTotal(start, target, perRequest, maxNew);
    NewSpansShape(start, target, perRequest, maxNew);
  }

  /** The requests of a fresh poll, seen as the pending requests of a round. */
  lemma FreshSpansAnswering(s: State, t: State, chain: Chain, f: nat, spans: seq<Span>, peer: PeerId)
    requires AtFrontier(s, chain, f) && f < s.target.value.bestBlock && spans != []
    requires Issued(s.headerRequests, s.nextId, spans, peer, s.tick, t.headerRequests)
    requires t == s.(headerRequests := t.headerRequests, nextId := t.nextId)
    requires Tiles(spans, FirstFree(s), End(FirstFree(s), spans))
    requires End(FirstFree(s), spans) <= s.target.value.bestBlock + 1
    ensures Answering(t, chain, End(FirstFree(s), spans))
  {
    var start := FirstFree(s);
    var end := End(start, spans);
    FirstFreeAtFrontier(s, chain, f);
    IssueKeepsDisjoint(s.headerRequests, s.nextId, spans, peer, s.tick, start, t.headerRequests);
    assert CoveredBy(spans, spans[0].start) by { assert spans[0].Covers(spans[0].start); }
    forall id | id in t.headerRequests
      ensures var w := t.headerRequests[id].what; 0 < w.count && s.localHead < w.start && w.start + w.count <= end
    {
      assert t.headerRequests[id].what == spans[id - s.nextId];
    }
    forall n: nat | s.localHead < n < end
      ensures n in t.headers || Pends(t.headerRequests, n)
    {
      if start <= n {
        assert CoveredBy(spans, n);
        NewSpansPend(s.headerRequests, s.nextId, spans, peer, s.tick, t.headerRequests, n);
      }
    }
  }

  lemma PollIssues(c: Config, s: State, chain: Chain, f: nat)
    requires AtFrontier(s, chain, f) && f < s.target.value.bestBlock
    ensures var spans := NewSpans(FirstFree(s), s.target.value.bestBlock, c.headersPerRequest, c.maxHeaderRequests);
            var t := PollHeaders(c, s).0;
            spans != [] ==>
              && t == s.(headerRequests := t.headerRequests, nextId := t.nextId)
              && t.headerRequests == Issue(s.headerRequests, s.nextId, spans, s.target.value.peer, s.tick)
  {
  }

  lemma {:induction false} IssuedFirst(s: State, spans: seq<Span>)
    requires s.headerRequests == map[] && s.target.Some? && spans != []
    ensures var r := Issue(s.headerRequests, s.nextId, spans, s.target.value.peer, s.tick);
      && Issued(s.headerRequests, s.nextId, spans, s.target.value.peer, s.tick, r)
      && r != map[]
  {
    IssueAdds(s.headerRequests, s.nextId, spans, s.target.value.peer, s.tick);
    assert s.nextId in Issue(s.headerRequests, s.nextId, spans, s.target.value.peer, s.tick);
  }

  lemma PollAtFrontier(c: Config, s: State, chain: Chain, f: nat)
    requires AtFrontier(s, chain, f) && f < s.target.value.bestBlock
    requires c.headersPerRequest > 0 && c.maxHeaderRequests > 0
    ensures var t := PollHeaders(c, s).0;
            && t.headerRequests != map[] && t.localHead == s.localHead && t.target == s.target
            && Answering(t, chain, Min(s.target.value.bestBlock + 1, FirstFree(s) + PerRound(c)))
  {
    var target := s.target.value.bestBlock;
    var start := FirstFree(s);
    var spans := NewSpans(start, target, c.headersPerRequest, c.maxHeaderRequests);
    FirstFreeAtFrontier(s, chain, f);
    PollIssues(c, s, chain, f);
    NewSpansTotal(start, target, c.headersPerRequest, c.maxHeaderRequests);
    NewSpansTile(start, target, c.headersPerRequest, c.maxHeaderRequests);
    IssuedFirst(s, spans);
    FreshSpansAnswering(s, PollHeaders(c, s).0, chain, f, spans, s.target.value.peer);
  }

  lemma HeaderRoundAdvances(c: Config, s: State, order: seq<Ticket<Span>>, chain: Chain, f: nat)
    requires AtFrontier(s, chain, f)
    requires c.headersPerRequest > 0 && c.maxHeaderRequests > 0
    requires IsOrder(order, SetOf(PollHeaders(c, s).1))
    ensures var t := HeaderRound(c, s, order, chain);
            && t.localHead == s.localHead && t.target == s.target
            && AtFrontier(t, chain, NextFrontier(PerRound(c), s.localHead, s.target.value.bestBlock, f))
  {
    var (p, tickets) := PollHeaders(c, s);
    if f < s.target.value.bestBlock {
      PollAtFrontier(c, s, chain, f);
      FirstFreeAtFrontier(s, chain, f);
      HeaderTicketsExactly(c, s);
      OrderOutstanding(tickets, p.headerRequests, TargetPeer(s.target), s.tick, order);
      var id :| id in p.headerRequests;
      assert id in TicketIds(order);
      AnswerEvery(p, order, chain, NextFrontier(PerRound(c), s.localHead, s.target.value.bestBlock, f) + 1);
    } else {
      assert p == s;
      NothingOutstanding(tickets, order);
    }
  }

  /** The frontier after `k` rounds that ask for `perRound` headers each. */
  function FrontierAfter(perRound: nat, head: nat, target: nat, k: nat): nat
    requires perRound > 0 && head < target
  {
    if k == 0 then head else Min(target, head + 1 + k * (perRound - 1))
  }

  lemma FrontierStep(perRound: nat, head: nat, target: nat, k: nat)
    requires perRound > 0 && head < target
    ensures head <= FrontierAfter(perRound, head, target, k) <= target
    ensures NextFrontier(perRound, head, target, FrontierAfter(perRound, head, target, k)) ==
            FrontierAfter(perRound, head, target, k + 1)
  {
    assert (k + 1) * (perRound - 1) == k * (perRound - 1) + (perRound - 1);
    assert k * (perRound - 1) >= 0;
  }

  /** What `k` header rounds leave, for an engine with this local head and target. */
  ghost predicate AfterRounds(c: Config, s: State, chain: Chain, head: nat, target: Target, k: nat)
    requires c.headersPerRequest > 0 && c.maxHeaderRequests > 0
  {
    && s.localHead == head < target.bestBlock && s.target == Some(target)
    && AtFrontier(s, chain, FrontierAfter(PerRound(c), head, target.bestBlock, k))
  }

  lemma AfterOneMore(c: Config, s: State, order: seq<Ticket<Span>>, chain: Chain, head: nat, target: Target, k: nat)
    requires c.headersPerRequest > 0 && c.maxHeaderRequests > 0
    requires AfterRounds(c, s, chain, head, target, k)
    requires IsOrder(order, SetOf(PollHeaders(c, s).1))
    ensures AfterRounds(c, HeaderRound(c, s, order, chain), chain, head, target, k + 1)
  {
    FrontierStep(PerRound(c), head, target.bestBlock, k);
    HeaderRoundAdvances(c, s, order, chain, FrontierAfter(PerRound(c), head, target.bestBlock, k));
  }

  lemma {:induction false} HeaderRoundsFrom(c: Config, s: State, orders: seq<seq<Ticket<Span>>>, chain: Chain,
                                            head: nat, target: Target, k: nat)
    requires c.headersPerRequest > 0 && c.maxHeaderRequests > 0
    requires AfterRounds(c, s, chain, head, target, k)
    requires HeaderRoundsLegal(c, s, orders, chain)
    ensures AfterRounds(c, HeaderRounds(c, s, orders, chain), chain, head, target, k + |orders|)
    decreases |orders|
  {
    if orders != [] {
      AfterOneMore(c, s, orders[0], chain, head, target, k);
      HeaderRoundsFrom(c, HeaderRound(c, s, orders[0], chain), orders[1..], chain, head, target, k + 1);
    }
  }

  /** A new engine that has just heard of a higher block. */
  function Started(head: nat, peer: PeerId, target: nat, hash: Hash): State {
    OnPeerStatus(Init(head), peer, target, hash)
  }

  /**
   After `k` header rounds exactly the numbers up to `FrontierAfter(k)` are stored, and the header phase
   is over exactly when at least one round was made and the target was reached.
   */
  lemma {:induction false} HeaderRoundsExactly(c: Config, head: nat, peer: PeerId, target: nat, hash: Hash,
                            orders: seq<seq<Ticket<Span>>>, chain: Chain)
    requires head < target && c.headersPerRequest > 0 && c.maxHeaderRequests > 0
    requires HeaderRoundsLegal(c, Started(head, peer, target, hash), orders, chain)
    ensures var t := HeaderRounds(c, Started(head, peer, target, hash), orders, chain);
            var perRound := PerRound(c);
            && AtFrontier(t, chain, FrontierAfter(perRound, head, target, |orders|))
            && t.localHead == head && t.target == Some(Target(target, hash, peer))
            && (t.phase.DownloadingBodies? <==> |orders| > 0 && target <= head + 1 + |orders| * (perRound - 1))
  {
    var t := HeaderRounds(c, Started(head, peer, target, hash), orders, chain);
    NothingAskedYet(c, head, peer, target, hash, chain);
    HeaderRoundsFrom(c, Started(head, peer, target, hash), orders, chain, head, Target(target, hash, peer), 0);
    HeadersDoneExactly(c, t, chain, head, Target(target, hash, peer), |orders|);
  }

  lemma NothingAskedYet(c: Config, head: nat, peer: PeerId, target: nat, hash: Hash, chain: Chain)
    requires head < target && c.headersPerRequest > 0 && c.maxHeaderRequests > 0
    ensures AfterRounds(c, Started(head, peer, target, hash), chain, head, Target(target, hash, peer), 0)
  {
  }

  lemma HeadersDoneExactly(c: Config, t: State, chain: Chain, head: nat, target: Target, k: nat)
    requires c.headersPerRequest > 0 && c.maxHeaderRequests > 0
    requires AfterRounds(c, t, chain, head, target, k)
    ensures t.phase.DownloadingBodies? <==> k > 0 && target.bestBlock <= head + 1 + k * (PerRound(c) - 1)
  {
  }

  /**
   A round of a single header re-requests the last stored number for ever: with one header per round the
   header phase ends, in whatever number of rounds, only if the target is the very next block.
   */
  lemma {:induction false} SingleHeaderRoundsStall(c: Config, head: nat, peer: PeerId, target: nat, hash: Hash,
                                orders: seq<seq<Ticket<Span>>>, chain: Chain)
    requires head < target && c.headersPerRequest == 1 && c.maxHeaderRequests == 1
    requires HeaderRoundsLegal(c, Started(head, peer, target, hash), orders, chain)
    ensures var t := HeaderRounds(c, Started(head, peer, target, hash), orders, chain);
            t.phase.DownloadingBodies? <==> |orders| > 0 && target == head + 1
  {
    HeaderRoundsExactly(c, head, peer, target, hash, orders, chain);
    assert PerRound(c) == 1;
    assert |orders| * (1 - 1) == 0;
  }

  /** With no room for a header, no number is ever asked for; requests for no header at all may still go out. */
  lemma NoRoomNoRequest(c: Config, s: State, n: nat)
    requires c.headersPerRequest == 0 || c.maxHeaderRequests == 0
    ensures !CoveredBy(SpansToIssue(c, s), n)
  {
    if s.phase.DownloadingHeaders? && s.target.Some? {
      var room := SaturatingSub(c.maxHeaderRequests, |s.headerRequests|);
      var spans := NewSpans(FirstFree(s), s.target.value.bestBlock, c.headersPerRequest, room);
      EmptySpans(c, FirstFree(s), s.target.value.bestBlock, room, n);
      assert SpansToIssue(c, s) == spans;
    }
  }

  lemma {:induction false} EmptySpans(c: Config, start: nat, target: nat, maxNew: nat, n: nat)
    requires c.headersPerRequest == 0 || maxNew == 0
    ensures !CoveredBy(NewSpans(start, target, c.headersPerRequest, maxNew), n)
    decreases maxNew
  {
    if maxNew > 0 && start <= target {
      var rest := NewSpans(start, target, c.headersPerRequest, maxNew - 1);
      EmptySpans(c, start, target, maxNew - 1, n);
      var r := NewSpans(start, target, c.headersPerRequest, maxNew);
      assert r == [Span(start, 0)] + rest;
      forall k | 0 <= k < |r|
        ensures !r[k].Covers(n)
      {
        if k > 0 { assert r[k] == rest[k - 1]; }
      }
    }
  }
}

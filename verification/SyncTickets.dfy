/**
 What a poll hands out: the returned tickets and the entries it adds to the pending table are the same
 requests, id by id. A peer sees only the tickets, so the rounds of `SyncRounds` and `SyncBodies` answer
 these.
 */
module SyncTickets {
  import opened Wrappers
  import opened OrderedKeys
  import opened Sync
  import opened SyncRuns

  /** Exactly one of the tickets has this id. */
  ghost predicate OneWithId<T>(tickets: seq<Ticket<T>>, id: RequestId) {
    exists i :: 0 <= i < |tickets| && tickets[i].id == id &&
      forall j :: 0 <= j < |tickets| && tickets[j].id == id ==> j == i
  }

  /** From `before` to `after` the table gained exactly the requests that `tickets` tell of, sent to `peer`. */
  ghost predicate HandsOut<T>(before: Pending<T>, after: Pending<T>, tickets: seq<Ticket<T>>, peer: Option<PeerId>,
                              tick: nat)
  {
    && (forall id :: id in before ==> id in after && after[id] == before[id])
    && (forall id: RequestId :: id in after && id !in before <==> OneWithId(tickets, id))
    && (forall i :: 0 <= i < |tickets| ==>
          && tickets[i].peer == peer
          && tickets[i].id in after && tickets[i].id !in before
          && after[tickets[i].id] == Request(tickets[i].what, PeerOrEmpty(peer), tick, 0))
  }

  ghost predicate NumberedFrom<T>(tickets: seq<Ticket<T>>, id: RequestId) {
    forall i :: 0 <= i < |tickets| ==> tickets[i].id == id + i
  }

  lemma {:induction false} TicketAt<T>(id: RequestId, whats: seq<T>, peer: Option<PeerId>)
    ensures |Tickets(id, whats, peer)| == |whats|
    ensures forall i :: 0 <= i < |whats| ==> Tickets(id, whats, peer)[i] == Ticket(id + i, whats[i], peer)
    decreases |whats|
  {
    if whats != [] {
      TicketAt(id + 1, whats[1..], peer);
    }
  }

  lemma {:induction false} IssuedHandsOut<T>(before: Pending<T>, id: RequestId, whats: seq<T>, peer: Option<PeerId>,
                                             tick: nat, after: Pending<T>)
    requires IdsBelow(before, id) && Issued(before, id, whats, PeerOrEmpty(peer), tick, after)
    ensures HandsOut(before, after, Tickets(id, whats, peer), peer, tick)
  {
    var tickets := Tickets(id, whats, peer);
    TicketAt(id, whats, peer);
    forall j: RequestId
      ensures j in after && j !in before <==> OneWithId(tickets, j)
    {
      if j in after && j !in before {
        assert tickets[j - id].id == j;
      }
      if OneWithId(tickets, j) {
        var i :| 0 <= i < |tickets| && tickets[i].id == j;
        assert j == id + i;
      }
    }
  }

  lemma {:induction false} IssueHandsOut<T>(before: Pending<T>, id: RequestId, whats: seq<T>, peer: Option<PeerId>,
                                            tick: nat)
    requires IdsBelow(before, id)
    ensures HandsOut(before, Issue(before, id, whats, PeerOrEmpty(peer), tick), Tickets(id, whats, peer), peer, tick)
    ensures |Tickets(id, whats, peer)| == |whats| && NumberedFrom(Tickets(id, whats, peer), id)
  {
    IssueAdds(before, id, whats, PeerOrEmpty(peer), tick);
    IssuedHandsOut(before, id, whats, peer, tick, Issue(before, id, whats, PeerOrEmpty(peer), tick));
    TicketAt(id, whats, peer);
  }

  /** A poll for headers returns a ticket for each request it records, and records each it returns one for. */
  lemma HeaderTicketsExactly(c: Config, s: State)
    requires IdsBelow(s.headerRequests, s.nextId)
    ensures var (t, tickets) := PollHeaders(c, s);
            && HandsOut(s.headerRequests, t.headerRequests, tickets, TargetPeer(s.target), s.tick)
            && t == s.(headerRequests := t.headerRequests, nextId := s.nextId + |tickets|)
            && NumberedFrom(tickets, s.nextId)
  {
    var spans := SpansToIssue(c, s);
    if spans != [] {
      IssueHandsOut(s.headerRequests, s.nextId, spans, TargetPeer(s.target), s.tick);
    }
  }

  /** A poll for bodies, whatever it asks for. */
  lemma BodyPoll(c: Config, s: State) returns (chunks: seq<seq<Hash>>)
    requires s.phase.DownloadingBodies? && c.bodiesPerRequest > 0
    ensures PollBodies(c, s).1 == Tickets(s.nextId, chunks, TargetPeer(s.target))
    ensures PollBodies(c, s).0 ==
      s.(bodyRequests := Issue(s.bodyRequests, s.nextId, chunks, PeerOrEmpty(TargetPeer(s.target)), s.tick),
         nextId := s.nextId + |chunks|)
  {
    chunks := Chunks(HashesToFetch(s.headers, BodyLimit(c, |s.bodyRequests|)), c.bodiesPerRequest);
  }

  /** A poll for bodies likewise. */
  lemma BodyTicketsExactly(c: Config, s: State)
    requires IdsBelow(s.bodyRequests, s.nextId) && Possible(c, s, PollB)
    ensures var (t, tickets) := PollBodies(c, s);
            && HandsOut(s.bodyRequests, t.bodyRequests, tickets, TargetPeer(s.target), s.tick)
            && t == s.(bodyRequests := t.bodyRequests, nextId := s.nextId + |tickets|)
            && NumberedFrom(tickets, s.nextId)
  {
    if s.phase.DownloadingBodies? {
      var chunks := BodyPoll(c, s);
      IssueHandsOut(s.bodyRequests, s.nextId, chunks, TargetPeer(s.target), s.tick);
    }
  }

  /** On every run from a new engine, each poll hands out exactly what it records. */
  lemma {:induction false} TicketsOnEveryRun(c: Config, head: nat, es: seq<Event>)
    requires PossibleRun(c, Init(head), es)
    ensures var s := Run(c, Init(head), es);
            var (t, tickets) := PollHeaders(c, s);
            HandsOut(s.headerRequests, t.headerRequests, tickets, TargetPeer(s.target), s.tick)
    ensures var s := Run(c, Init(head), es);
            Possible(c, s, PollB) ==>
              var (t, tickets) := PollBodies(c, s);
              HandsOut(s.bodyRequests, t.bodyRequests, tickets, TargetPeer(s.target), s.tick)
  {
    RunKeepsSound(c, Init(head), es);
    var s := Run(c, Init(head), es);
    HeaderTicketsExactly(c, s);
    if Possible(c, s, PollB) {
      BodyTicketsExactly(c, s);
    }
  }

  /**
   No id is handed out twice. In particular a request that timed out and was queued again under a new id
   is never handed out under it: nothing but a late answer to its first ticket can satisfy it.
   */
  lemma {:induction false} NeverHandedOutAgain(c: Config, s: State, es: seq<Event>, id: RequestId)
    requires Sound(c, s) && PossibleRun(c, s, es) && id < s.nextId
    ensures forall k :: k in PollHeaders(c, Run(c, s, es)).1 ==> k.id != id
    ensures Possible(c, Run(c, s, es), PollB) ==> forall k :: k in PollBodies(c, Run(c, s, es)).1 ==> k.id != id
  {
    RunKeepsSound(c, s, es);
    var t := Run(c, s, es);
    HeaderTicketsExactly(c, t);
    if Possible(c, t, PollB) {
      BodyTicketsExactly(c, t);
    }
  }

  /** A tick queues requests again under ids that it has used up by then. */
  lemma {:induction false} RetriedNeverHandedOut(c: Config, s: State, hs: seq<RequestId>, bs: seq<RequestId>,
                                                 es: seq<Event>, id: RequestId)
    requires Sound(c, s) && TickOrders(c, s, hs, bs) && PossibleRun(c, Tick(c, s, hs, bs).0, es)
    requires var t := Tick(c, s, hs, bs).0; id in t.headerRequests || id in t.bodyRequests
    ensures var u := Run(c, Tick(c, s, hs, bs).0, es);
            && (forall k :: k in PollHeaders(c, u).1 ==> k.id != id)
            && (Possible(c, u, PollB) ==> forall k :: k in PollBodies(c, u).1 ==> k.id != id)
  {
    TickKeepsSound(c, s, hs, bs);
    NeverHandedOutAgain(c, Tick(c, s, hs, bs).0, es, id);
  }

  // ---------- What is asked for ----------

  /** The next number to ask for: the highest of the pending ends, the stored numbers and the head's successor. */
  ghost predicate IsNext(s: State, start: nat) {
    && s.localHead + 1 <= start
    && (forall n :: n in s.headers ==> n <= start)
    && (forall id :: id in s.headerRequests ==> EndOf(s.headerRequests[id].what) <= start)
    && (start == s.localHead + 1 || start in s.headers
        || exists id :: id in s.headerRequests && EndOf(s.headerRequests[id].what) == start)
  }

  function EndOf(span: Span): nat { span.start + span.count }

  lemma HighestIs(pending: Pending<Span>, high: nat)
    requires high == HighestRequested(pending)
    ensures forall id :: id in pending ==> EndOf(pending[id].what) <= high
    ensures high == 0 || exists id :: id in pending && EndOf(pending[id].what) == high
  {
    var ends := set id | id in pending :: pending[id].what.start + pending[id].what.count;
    assert high == GreatestOr0(ends);
    if high > 0 {
      assert high in ends;
      var id :| id in pending && pending[id].what.start + pending[id].what.count == high;
      assert EndOf(pending[id].what) == high;
    }
  }

  lemma NextIs(s: State)
    ensures IsNext(s, FirstFree(s))
  {
    HighestIs(s.headerRequests, HighestRequested(s.headerRequests));
  }

  /** Spans from `start` on, one after the other, of `perRequest` numbers each unless the target cuts one short. */
  ghost predicate SpansFrom(spans: seq<Span>, start: nat, target: nat, perRequest: nat) {
    forall i :: 0 <= i < |spans| ==>
      && spans[i].start == (if i == 0 then start else EndOf(spans[i - 1]))
      && spans[i].start <= target
      && spans[i].count == if spans[i].start + perRequest <= target + 1 then perRequest else target + 1 - spans[i].start
  }

  ghost predicate ReachesTarget(spans: seq<Span>, start: nat, target: nat) {
    if spans == [] then start > target else EndOf(spans[|spans| - 1]) > target
  }

  lemma {:induction false} SpansAre(start: nat, target: nat, perRequest: nat, room: nat)
    ensures var r := NewSpans(start, target, perRequest, room);
      && SpansFrom(r, start, target, perRequest) && |r| <= room
      && (|r| < room ==> ReachesTarget(r, start, target))
    decreases room
  {
    if room > 0 && start <= target {
      var first := Span(start, if start + perRequest <= target + 1 then perRequest else target + 1 - start);
      var rest := NewSpans(EndOf(first), target, perRequest, room - 1);
      SpansAre(EndOf(first), target, perRequest, room - 1);
      assert NewSpans(start, target, perRequest, room) == [first] + rest;
    }
  }

  function WhatOf<T>(tickets: seq<Ticket<T>>): (r: seq<T>)
    ensures |r| == |tickets| && forall i :: 0 <= i < |r| ==> r[i] == tickets[i].what
  {
    seq(|tickets|, i requires 0 <= i < |tickets| => tickets[i].what)
  }

  lemma {:induction false} WhatOfTickets<T>(id: RequestId, whats: seq<T>, peer: Option<PeerId>)
    ensures WhatOf(Tickets(id, whats, peer)) == whats
  {
    TicketAt(id, whats, peer);
  }

  /**
   A poll for headers asks for consecutive spans from the next number on, within the free places, and
   stops early only past the target; out of the header phase, or with no target, it asks for nothing.
   */
  lemma {:induction false} HeadersAskedExactly(c: Config, s: State) returns (start: nat)
    ensures IsNext(s, start)
    ensures var spans := WhatOf(PollHeaders(c, s).1);
      && (!(s.phase.DownloadingHeaders? && s.target.Some?) ==> spans == [])
      && (s.phase.DownloadingHeaders? && s.target.Some? ==>
            && SpansFrom(spans, start, s.target.value.bestBlock, c.headersPerRequest)
            && (spans != [] ==> |s.headerRequests| + |spans| <= c.maxHeaderRequests)
            && (|s.headerRequests| + |spans| < c.maxHeaderRequests ==>
                  ReachesTarget(spans, start, s.target.value.bestBlock)))
  {
    start := FirstFree(s);
    NextIs(s);
    var spans := SpansToIssue(c, s);
    if s.phase.DownloadingHeaders? && s.target.Some? {
      SpansAre(start, s.target.value.bestBlock, c.headersPerRequest,
               if c.maxHeaderRequests < |s.headerRequests| then 0 else c.maxHeaderRequests - |s.headerRequests|);
      WhatOfTickets(s.nextId, spans, TargetPeer(s.target));
    }
  }

  function Joined<T>(parts: seq<seq<T>>): seq<T> {
    if parts == [] then [] else parts[0] + Joined(parts[1..])
  }

  /** Every part but the last has `n` elements, and the last no more and at least one. */
  ghost predicate Full<T>(parts: seq<seq<T>>, n: nat) {
    forall k :: 0 <= k < |parts| ==> 0 < |parts[k]| <= n && (k + 1 < |parts| ==> |parts[k]| == n)
  }

  lemma {:induction false} ChunksAre<T>(s: seq<T>, n: nat)
    requires n > 0
    ensures Joined(Chunks(s, n)) == s && Full(Chunks(s, n), n)
    decreases |s|
  {
    if |s| > n {
      ChunksAre(s[n..], n);
      var rest := Chunks(s[n..], n);
      assert ([s[..n]] + rest)[1..] == rest;
    } else if s != [] {
      assert [s][1..] == [];
      assert s + [] == s;
    }
  }

  /** `ns` are the lowest numbers without a body, ascending, as many as there are or `room` of them. */
  ghost predicate LowestMissing(headers: Headers, ns: seq<nat>, room: nat) {
    && Increasing(ns) && |ns| <= room
    && (forall n :: n in ns ==> n in headers && !headers[n].bodyDownloaded)
    && (forall n :: n in headers && !headers[n].bodyDownloaded && n !in ns ==>
          |ns| == room && forall k :: k in ns ==> k < n)
  }

  lemma {:induction false} TakesLowest(headers: Headers, room: nat)
    ensures LowestMissing(headers, Take(Missing(headers), room), room)
  {
    var all := Missing(headers);
    var ns := Take(all, room);
    forall n | n in headers && !headers[n].bodyDownloaded && n !in ns
      ensures |ns| == room && forall k :: k in ns ==> k < n
    {
      assert n in all;
      var j :| 0 <= j < |all| && all[j] == n;
      assert forall i :: 0 <= i < |ns| ==> ns[i] == all[i] && ns[i] in ns;
    }
  }

  ghost predicate HashesAt(headers: Headers, ns: seq<nat>, hashes: seq<Hash>) {
    |hashes| == |ns| && forall i :: 0 <= i < |ns| ==> ns[i] in headers && hashes[i] == headers[ns[i]].hash
  }

  lemma {:induction false} ChunksAsked(c: Config, s: State, ns: seq<nat>) returns (hashes: seq<Hash>)
    requires s.phase.DownloadingBodies? && c.bodiesPerRequest > 0
    requires ns == Take(Missing(s.headers), BodyRoom(c, s)) && forall n :: n in ns ==> n in s.headers
    ensures HashesAt(s.headers, ns, hashes)
    ensures WhatOf(PollBodies(c, s).1) == Chunks(hashes, c.bodiesPerRequest)
  {
    hashes := HashesOf(s.headers, ns);
    WhatOfTickets(s.nextId, Chunks(hashes, c.bodiesPerRequest), TargetPeer(s.target));
    assert PollBodies(c, s).1 == Tickets(s.nextId, Chunks(hashes, c.bodiesPerRequest), TargetPeer(s.target));
  }

  /**
   A poll for bodies asks for the hashes of the lowest headers without a body, in order, as many as the
   free places allow, in full requests but for the last; out of the body phase it asks for nothing.
   */
  lemma {:induction false} BodiesAskedExactly(c: Config, s: State) returns (ns: seq<nat>)
    requires Possible(c, s, PollB)
    ensures var asked := WhatOf(PollBodies(c, s).1);
      && (!s.phase.DownloadingBodies? ==> asked == [])
      && (s.phase.DownloadingBodies? ==>
            && LowestMissing(s.headers, ns, BodyRoom(c, s)) && Full(asked, c.bodiesPerRequest)
            && HashesAt(s.headers, ns, Joined(asked)))
  {
    ns := [];
    if s.phase.DownloadingBodies? {
      ns := Take(Missing(s.headers), BodyRoom(c, s));
      TakesLowest(s.headers, BodyRoom(c, s));
      var hashes := ChunksAsked(c, s, ns);
      ChunksAre(hashes, c.bodiesPerRequest);
    }
  }

  /** The free places for body requests, times the bodies of each. */
  function BodyRoom(c: Config, s: State): nat {
    if c.maxBodyRequests < |s.bodyRequests| then 0 else (c.maxBodyRequests - |s.bodyRequests|) * c.bodiesPerRequest
  }

  // ---------- Answering the tickets ----------

  function TicketIds<T>(tickets: seq<Ticket<T>>): (r: seq<RequestId>)
    ensures |r| == |tickets|
    ensures forall i :: 0 <= i < |r| ==> r[i] == tickets[i].id
  {
    seq(|tickets|, i requires 0 <= i < |tickets| => tickets[i].id)
  }

  /** `order` answers the whole table, each pending request once and with what it asks for. */
  ghost predicate Outstanding<T>(order: seq<Ticket<T>>, pending: Pending<T>) {
    && IsOrder(TicketIds(order), pending.Keys)
    && forall i :: 0 <= i < |order| ==> order[i].id in pending && pending[order[i].id].what == order[i].what
  }

  lemma SameIdSameTicket<T>(tickets: seq<Ticket<T>>, after: Pending<T>, peer: Option<PeerId>, tick: nat,
                            a: Ticket<T>, b: Ticket<T>)
    requires HandsOut(map[], after, tickets, peer, tick) && a in tickets && b in tickets
    ensures a.id == b.id ==> a == b
  {
    assert OneWithId(tickets, a.id);
  }

  /** The tickets of a poll with nothing pending before, in any order, answer the whole table. */
  lemma OrderOutstanding<T(!new)>(tickets: seq<Ticket<T>>, after: Pending<T>, peer: Option<PeerId>, tick: nat,
                            order: seq<Ticket<T>>)
    requires HandsOut(map[], after, tickets, peer, tick) && IsOrder(order, SetOf(tickets))
    ensures Outstanding(order, after)
  {
    var ids := TicketIds(order);
    forall i | 0 <= i < |order|
      ensures order[i] in tickets && order[i].id in after && after[order[i].id].what == order[i].what
    {
      assert order[i] in order;
    }
    forall i, j | 0 <= i < j < |ids|
      ensures ids[i] != ids[j]
    {
      SameIdSameTicket(tickets, after, peer, tick, order[i], order[j]);
    }
    forall id: RequestId | id in after
      ensures id in ids
    {
      assert OneWithId(tickets, id);
      var i :| 0 <= i < |tickets| && tickets[i].id == id;
      assert tickets[i] in tickets && tickets[i] in order;
      var j :| 0 <= j < |order| && order[j] == tickets[i];
      assert ids[j] == id;
    }
  }

  lemma OutstandingTail<T>(order: seq<Ticket<T>>, pending: Pending<T>)
    requires Outstanding(order, pending) && order != []
    ensures order[0].id in pending && pending[order[0].id].what == order[0].what
    ensures Outstanding(order[1..], pending - {order[0].id})
    ensures order[1..] == [] <==> pending - {order[0].id} == map[]
  {
    var rest := pending - {order[0].id};
    var ids := TicketIds(order);
    OrderTail(ids, pending.Keys);
    assert rest.Keys == pending.Keys - {order[0].id};
    assert TicketIds(order[1..]) == ids[1..];
    NonEmptyHas(ids[1..]);
    forall i | 0 <= i < |order[1..]|
      ensures order[1..][i].id in rest
    {
      assert ids[1..][i] in ids[1..];
    }
  }

  /** Nothing pending, nothing to answer. */
  lemma NothingOutstanding<T>(tickets: seq<Ticket<T>>, order: seq<Ticket<T>>)
    requires tickets == [] && forall k :: k in order <==> k in SetOf(tickets)
    ensures order == []
  {
    NonEmptyHas(order);
  }
}

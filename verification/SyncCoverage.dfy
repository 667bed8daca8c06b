/**
 No header is forgotten: on runs whose answers are complete, every number up to the frontier is
 downloaded, covered by a pending request, or was reported as given up.
 */
module SyncCoverage {
  import opened Wrappers
  import opened Arithmetic
  import opened OrderedKeys
  import opened Sync
  import opened SyncRuns

  ghost predicate Pends(pending: Pending<Span>, n: nat) {
    exists id :: id in pending && pending[id].what.Covers(n)
  }

  /** `n` lies above the local head and at or below the highest number ever asked for or stored. */
  ghost predicate UpToFrontier(s: State, n: nat) {
    s.localHead < n && (n < HighestRequested(s.headerRequests) || n <= GreatestOr0(s.headers.Keys))
  }

  ghost predicate Covered(s: State, lost: iset<nat>) {
    forall n: nat :: UpToFrontier(s, n) ==> n in s.headers || Pends(s.headerRequests, n) || n in lost
  }

  /** `ms` answers a pending request in full: one header for each number of its span, in order. */
  ghost predicate Answers(ms: seq<HeaderMsg>, span: Span) {
    |ms| == span.count && forall i :: 0 <= i < |ms| ==> ms[i].number == span.start + i
  }

  ghost predicate Faithful(s: State, e: Event) {
    match e
    case Headers(ms) =>
      exists id :: id in s.headerRequests && Answers(ms, s.headerRequests[id].what)
    case Head(n) => s.localHead <= n
    case _ => true
  }

  ghost predicate FaithfulRun(c: Config, s: State, es: seq<Event>)
    requires PossibleRun(c, s, es)
    decreases |es|
  {
    es == [] || (Faithful(s, es[0]) && FaithfulRun(c, Step(c, s, es[0]), es[1..]))
  }

  /** The numbers of the header requests that this tick reports as `MaxRetries`. */
  ghost function GivenUp(pending: Pending<Span>, results: seq<SyncResult>): iset<nat> {
    iset n: nat, id | id in pending && Error(MaxRetries(id)) in results && pending[id].what.Covers(n) :: n
  }

  ghost function LostAt(c: Config, s: State, e: Event): iset<nat> {
    match e
    case Ticked(hs, bs) => GivenUp(s.headerRequests, Tick(c, s, hs, bs).1)
    case _ => iset{}
  }

  ghost function LostOn(c: Config, s: State, es: seq<Event>): iset<nat>
    requires PossibleRun(c, s, es)
    decreases |es|
  {
    if es == [] then iset{} else LostAt(c, s, es[0]) + LostOn(c, Step(c, s, es[0]), es[1..])
  }

  // ---------- Each event keeps coverage ----------

  lemma HighestRequestedIsTight(pending: Pending<Span>, n: nat)
    requires n < HighestRequested(pending)
    ensures exists id :: id in pending && n < pending[id].what.start + pending[id].what.count
  {
    var ends := set id | id in pending :: pending[id].what.start + pending[id].what.count;
    assert HighestRequested(pending) in ends;
  }

  lemma NewSpansPend(pending: Pending<Span>, id: RequestId, spans: seq<Span>, peer: PeerId, tick: nat, r: Pending<Span>,
      n: nat)
    requires Issued(pending, id, spans, peer, tick, r)
    ensures CoveredBy(spans, n) ==> Pends(r, n)
    ensures Pends(pending, n) ==> Pends(r, n)
  {
    if CoveredBy(spans, n) {
      var k :| 0 <= k < |spans| && spans[k].Covers(n);
      assert id + k in r && r[id + k].what.Covers(n);
    }
    if Pends(pending, n) {
      var i :| i in pending && pending[i].what.Covers(n);
      assert i in r && r[i].what.Covers(n);
    }
  }

  lemma NewFrontier(pending: Pending<Span>, id: RequestId, spans: seq<Span>, peer: PeerId, tick: nat, r: Pending<Span>,
      bound: nat, n: nat)
    requires Issued(pending, id, spans, peer, tick, r)
    requires forall i :: 0 <= i < |spans| ==> spans[i].start + spans[i].count <= bound
    requires n < HighestRequested(r)
    ensures n < HighestRequested(pending) || n < bound
  {
    HighestRequestedIsTight(r, n);
    var i :| i in r && n < r[i].what.start + r[i].what.count;
    if i !in pending {
      assert r[i].what == spans[i - id];
    }
  }

  lemma PollCovers(c: Config, s: State, lost: iset<nat>)
    requires Sound(c, s) && Covered(s, lost)
    ensures Covered(PollHeaders(c, s).0, lost)
  {
    var spans := SpansToIssue(c, s);
    if spans != [] {
      var start := FirstFree(s);
      var peer := s.target.value.peer;
      NewSpansShape(start, s.target.value.bestBlock, c.headersPerRequest,
                    SaturatingSub(c.maxHeaderRequests, |s.headerRequests|));
      IssueAdds(s.headerRequests, s.nextId, spans, peer, s.tick);
      var t := PollHeaders(c, s).0;
      forall n: nat | UpToFrontier(t, n)
        ensures n in t.headers || Pends(t.headerRequests, n) || n in lost
      {
        NewSpansPend(s.headerRequests, s.nextId, spans, peer, s.tick, t.headerRequests, n);
        if UpToFrontier(s, n) {
          assert n in s.headers || Pends(s.headerRequests, n) || n in lost;
        } else {
          NewFrontier(s.headerRequests, s.nextId, spans, peer, s.tick, t.headerRequests, End(start, spans), n);
          assert start <= n < End(start, spans);
          assert CoveredBy(spans, n);
        }
      }
    }
  }

  lemma {:induction false} InsertedKeys(headers: Headers, ms: seq<HeaderMsg>)
    ensures var r := InsertHeaders(headers, ms);
            && (forall n :: n in headers ==> n in r && r[n] == headers[n])
            && (forall i :: 0 <= i < |ms| ==> ms[i].number in r)
            && (forall n :: n in r && n !in headers ==>
                  exists i :: 0 <= i < |ms| && ms[i].number == n && r[n] == Downloaded(ms[i]))
    decreases |ms|
  {
    if ms != [] {
      var h := if ms[0].number in headers then headers else headers[ms[0].number := Downloaded(ms[0])];
      InsertedKeys(h, ms[1..]);
      var r := InsertHeaders(h, ms[1..]);
      forall n | n in r && n !in headers
        ensures exists i :: 0 <= i < |ms| && ms[i].number == n && r[n] == Downloaded(ms[i])
      {
        if n in h {
          assert ms[0].number == n && r[n] == Downloaded(ms[0]);
        } else {
          var i :| 0 <= i < |ms[1..]| && ms[1..][i].number == n && r[n] == Downloaded(ms[1..][i]);
          assert ms[i + 1].number == n && r[n] == Downloaded(ms[i + 1]);
        }
      }
      forall i | 0 <= i < |ms|
        ensures ms[i].number in r
      {
        if i > 0 { assert ms[1..][i - 1] == ms[i]; }
      }
    }
  }

  lemma DropLowersFrontier(pending: Pending<Span>, start: nat)
    ensures HighestRequested(DropStart(pending, start)) <= HighestRequested(pending)
  {
    var kept := DropStart(pending, start);
    if HighestRequested(kept) > 0 {
      HighestRequestedIsTight(kept, HighestRequested(kept) - 1);
    }
  }

  /** Dropping the answered request uncovers only numbers of its own span. */
  lemma DropUncovers(pending: Pending<Span>, id: RequestId, n: nat)
    requires Disjoint(pending) && id in pending && pending[id].what.count > 0
    requires Pends(pending, n) && !pending[id].what.Covers(n)
    ensures Pends(DropStart(pending, pending[id].what.start), n)
  {
    var j :| j in pending && pending[j].what.Covers(n);
    assert Apart(pending[j].what, pending[id].what);
    var kept := DropStart(pending, pending[id].what.start);
    assert j in kept && kept[j].what.Covers(n);
  }

  lemma AnswerCovers(c: Config, s: State, ms: seq<HeaderMsg>, lost: iset<nat>)
    requires Sound(c, s) && Covered(s, lost) && Faithful(s, Headers(ms))
    ensures Covered(OnHeaders(s, ms).0, lost)
  {
    var id :| id in s.headerRequests && Answers(ms, s.headerRequests[id].what);
    var span := s.headerRequests[id].what;
    var t := OnHeaders(s, ms).0;
    if ms != [] {
      InsertedKeys(s.headers, ms);
      DropLowersFrontier(s.headerRequests, span.start);
      forall n: nat | UpToFrontier(t, n)
        ensures n in t.headers || Pends(t.headerRequests, n) || n in lost
      {
        if span.Covers(n) {
          assert ms[n - span.start].number == n;
        } else {
          assert UpToFrontier(s, n);
          if Pends(s.headerRequests, n) {
            DropUncovers(s.headerRequests, id, n);
          }
        }
      }
    }
  }

  /** One retry keeps a span pending, unless it reports `MaxRetries`. */
  lemma RetryOneCovers(id: RequestId, pending: Pending<Span>, nextId: RequestId, tick: nat, max: nat, n: nat)
    requires IdsBelow(pending, nextId) && Pends(pending, n)
    ensures var r := RetryOne(id, pending, nextId, tick, max);
            Pends(r.pending, n) || (id in pending && pending[id].what.Covers(n) && r.results == [Error(MaxRetries(id))])
  {
    var j :| j in pending && pending[j].what.Covers(n);
    var r := RetryOne(id, pending, nextId, tick, max);
    if j != id {
      assert j in r.pending && r.pending[j].what.Covers(n);
    } else if pending[id].retries + 1 <= max {
      assert nextId in r.pending && r.pending[nextId].what.Covers(n);
    }
  }

  lemma {:induction false} RetryCovers(ids: seq<RequestId>, pending: Pending<Span>, nextId: RequestId, tick: nat,
      max: nat, n: nat)
    requires IdsBelow(pending, nextId) && Aged(pending, tick) && Pends(pending, n)
    requires forall id :: id in ids ==> id < nextId
    ensures var r := RetryAll(ids, pending, nextId, tick, max);
            Pends(r.pending, n) ||
            exists id :: id in ids && id in pending && Error(MaxRetries(id)) in r.results && pending[id].what.Covers(n)
    decreases |ids|
  {
    if ids != [] {
      var one := RetryOne(ids[0], pending, nextId, tick, max);
      var r := RetryAll(ids, pending, nextId, tick, max);
      RetryOneKeeps(ids[0], pending, nextId, tick, max);
      RetryOneCovers(ids[0], pending, nextId, tick, max, n);
      if Pends(one.pending, n) {
        assert IdsBelow(one.pending, one.nextId);
        assert Aged(one.pending, tick);
        assert forall id :: id in ids[1..] ==> id in ids;
        RetryCovers(ids[1..], one.pending, one.nextId, tick, max, n);
        if !Pends(r.pending, n) {
          var rest := RetryAll(ids[1..], one.pending, one.nextId, tick, max);
          var id :| id in ids[1..] && id in one.pending && Error(MaxRetries(id)) in rest.results
              && one.pending[id].what.Covers(n);
          assert id in ids && id < nextId;
          assert id in pending && one.pending[id] == pending[id];
        }
      } else {
        assert one.results[0] in r.results;
      }
    }
  }

  lemma {:induction false} RetryLowersFrontier(ids: seq<RequestId>, pending: Pending<Span>, nextId: RequestId,
      tick: nat, max: nat, bound: nat)
    requires forall id :: id in pending ==> pending[id].what.start + pending[id].what.count <= bound
    ensures var r := RetryAll(ids, pending, nextId, tick, max).pending;
            forall id :: id in r ==> r[id].what.start + r[id].what.count <= bound
    decreases |ids|
  {
    if ids != [] {
      var one := RetryOne(ids[0], pending, nextId, tick, max);
      RetryLowersFrontier(ids[1..], one.pending, one.nextId, tick, max, bound);
      assert RetryAll(ids, pending, nextId, tick, max).pending ==
          RetryAll(ids[1..], one.pending, one.nextId, tick, max).pending;
    }
  }

  lemma {:induction false} RetryFrontier(ids: seq<RequestId>, pending: Pending<Span>, nextId: RequestId, tick: nat,
      max: nat)
    ensures HighestRequested(RetryAll(ids, pending, nextId, tick, max).pending) <= HighestRequested(pending)
  {
    var after := RetryAll(ids, pending, nextId, tick, max).pending;
    RetryLowersFrontier(ids, pending, nextId, tick, max, HighestRequested(pending));
    if HighestRequested(after) > 0 {
      HighestRequestedIsTight(after, HighestRequested(after) - 1);
    }
  }

  lemma TickCovers(c: Config, s: State, hs: seq<RequestId>, bs: seq<RequestId>, lost: iset<nat>)
    requires Sound(c, s) && Covered(s, lost) && TickOrders(c, s, hs, bs)
    ensures Covered(Tick(c, s, hs, bs).0, lost + LostAt(c, s, Ticked(hs, bs)))
  {
    var t := Tick(c, s, hs, bs).0;
    var results := Tick(c, s, hs, bs).1;
    var h := RetryAll(hs, s.headerRequests, s.nextId, s.tick + 1, c.maxRetries);
    RetryFrontier(hs, s.headerRequests, s.nextId, s.tick + 1, c.maxRetries);
    assert t.headerRequests == h.pending;
    assert h.results <= results;
    forall n: nat | UpToFrontier(t, n)
      ensures n in t.headers || Pends(t.headerRequests, n) || n in lost + GivenUp(s.headerRequests, results)
    {
      assert UpToFrontier(s, n);
      if Pends(s.headerRequests, n) {
        RetryCovers(hs, s.headerRequests, s.nextId, s.tick + 1, c.maxRetries, n);
      }
    }
  }

  lemma HeadCovers(s: State, number: nat, lost: iset<nat>)
    requires Covered(s, lost) && s.localHead <= number
    ensures Covered(UpdateLocalHead(s, number), lost)
  {
    var t := UpdateLocalHead(s, number);
    forall n: nat | UpToFrontier(t, n)
      ensures n in t.headers || Pends(t.headerRequests, n) || n in lost
    {
      assert n <= GreatestOr0(t.headers.Keys) ==> GreatestOr0(t.headers.Keys) in s.headers.Keys;
      assert UpToFrontier(s, n);
    }
  }

  lemma {:induction false} MarkedKeys(headers: Headers, hashes: seq<Hash>)
    ensures MarkBodies(headers, hashes).0.Keys == headers.Keys
    decreases |hashes|
  {
    if hashes != [] {
      MarkedKeys(Mark(headers, Taker(headers, hashes[0])), hashes[1..]);
    }
  }

  lemma SameCoverage(s: State, t: State, lost: iset<nat>)
    requires Covered(s, lost)
    requires t.localHead == s.localHead && t.headerRequests == s.headerRequests && t.headers.Keys == s.headers.Keys
    ensures Covered(t, lost)
  {
    forall n: nat | UpToFrontier(t, n)
      ensures n in t.headers || Pends(t.headerRequests, n) || n in lost
    {
      assert UpToFrontier(s, n);
    }
  }

  lemma VerifyIsQuiet(s: State)
    ensures var t := VerifyChain(s).0;
            t.localHead == s.localHead && t.headerRequests == s.headerRequests && t.headers.Keys == s.headers.Keys
  {
  }

  /** The events that leave the requests, the local head and the set of stored numbers alone. */
  lemma QuietStep(c: Config, s: State, e: Event)
    requires Possible(c, s, e)
    requires e.Status? || e.PollB? || e.Bodies? || e.Verify? || e.Drain?
    ensures var t := Step(c, s, e);
            t.localHead == s.localHead && t.headerRequests == s.headerRequests && t.headers.Keys == s.headers.Keys
  {
    if e.Bodies? {
      MarkedKeys(s.headers, e.hashes);
    } else if e.Verify? {
      VerifyIsQuiet(s);
    }
  }

  lemma StepCovers(c: Config, s: State, e: Event, lost: iset<nat>)
    requires Sound(c, s) && Possible(c, s, e) && Faithful(s, e) && Covered(s, lost)
    ensures Covered(Step(c, s, e), lost + LostAt(c, s, e))
  {
    if e.Ticked? {
      TickCovers(c, s, e.hs, e.bs, lost);
    } else {
      assert lost + LostAt(c, s, e) == lost;
      if e.PollH? {
        PollCovers(c, s, lost);
      } else if e.Headers? {
        AnswerCovers(c, s, e.ms, lost);
      } else if e.Head? {
        HeadCovers(s, e.number, lost);
      } else {
        QuietStep(c, s, e);
        SameCoverage(s, Step(c, s, e), lost);
      }
    }
  }

  lemma {:induction false} RunCovers(c: Config, s: State, es: seq<Event>, lost: iset<nat>)
    requires Sound(c, s) && PossibleRun(c, s, es) && FaithfulRun(c, s, es) && Covered(s, lost)
    ensures Covered(Run(c, s, es), lost + LostOn(c, s, es))
    decreases |es|
  {
    if es == [] {
      assert lost + LostOn(c, s, es) == lost;
    } else {
      StepCovers(c, s, es[0], lost);
      StepKeepsSound(c, s, es[0]);
      RunCovers(c, Step(c, s, es[0]), es[1..], lost + LostAt(c, s, es[0]));
      assert (lost + LostAt(c, s, es[0])) + LostOn(c, Step(c, s, es[0]), es[1..]) == lost + LostOn(c, s, es);
    }
  }

  /**
   From a new engine, on every run whose header answers are complete and whose local head never moves
   back, each number from the local head to the frontier is stored, pending, or was reported as
   `MaxRetries` on the way.
   */
  lemma {:induction false} NoHeaderForgotten(c: Config, head: nat, es: seq<Event>, n: nat)
    requires PossibleRun(c, Init(head), es) && FaithfulRun(c, Init(head), es)
    requires UpToFrontier(Run(c, Init(head), es), n)
    ensures var s := Run(c, Init(head), es);
            n in s.headers || Pends(s.headerRequests, n) || n in LostOn(c, Init(head), es)
  {
    RunCovers(c, Init(head), es, iset{});
  }

  /** A number of an answered span that the coverage statement does not need. */
  ghost predicate Spared(s: State, others: Pending<Span>, lost: iset<nat>, n: nat) {
    n <= s.localHead || n in s.headers || n in lost ||
    (HighestRequested(others) <= n && GreatestOr0(s.headers.Keys) < n)
  }

  /** What a short answer leaves of the unanswered number `n`: nothing pending, nothing stored anew. */
  lemma UnansweredNumber(c: Config, s: State, id: RequestId, ms: seq<HeaderMsg>, n: nat)
    requires Sound(c, s) && id in s.headerRequests
    requires 0 < |ms| && Answers(ms, Span(s.headerRequests[id].what.start, |ms|))
    requires s.headerRequests[id].what.start + |ms| <= n && s.headerRequests[id].what.Covers(n)
    ensures var t := OnHeaders(s, ms).0;
            && !Pends(t.headerRequests, n)
            && (n in t.headers <==> n in s.headers)
            && (n <= GreatestOr0(t.headers.Keys) <==> n <= GreatestOr0(s.headers.Keys))
  {
    var t := OnHeaders(s, ms).0;
    InsertedKeys(s.headers, ms);
    forall j | j in t.headerRequests
      ensures !t.headerRequests[j].what.Covers(n)
    {
      assert Apart(s.headerRequests[j].what, s.headerRequests[id].what);
    }
    assert forall k :: k in t.headers ==> k in s.headers || k < n;
    assert s.headers.Keys != {} ==> GreatestOr0(s.headers.Keys) in t.headers.Keys;
  }

  lemma ShortAnswerCovers(c: Config, s: State, id: RequestId, ms: seq<HeaderMsg>, lost: iset<nat>)
    requires Sound(c, s) && Covered(s, lost) && id in s.headerRequests
    requires 0 < |ms| <= s.headerRequests[id].what.count
    requires Answers(ms, Span(s.headerRequests[id].what.start, |ms|))
    requires var span := s.headerRequests[id].what;
             forall n: nat :: span.start + |ms| <= n < span.start + span.count ==>
               Spared(s, DropStart(s.headerRequests, span.start), lost, n)
    ensures Covered(OnHeaders(s, ms).0, lost)
  {
    var span := s.headerRequests[id].what;
    var t := OnHeaders(s, ms).0;
    InsertedKeys(s.headers, ms);
    DropLowersFrontier(s.headerRequests, span.start);
    forall n: nat | UpToFrontier(t, n)
      ensures n in t.headers || Pends(t.headerRequests, n) || n in lost
    {
      if span.start <= n < span.start + |ms| {
        assert ms[n - span.start].number == n;
      } else if span.Covers(n) {
        UnansweredNumber(c, s, id, ms, n);
        assert Spared(s, DropStart(s.headerRequests, span.start), lost, n);
      } else {
        assert UpToFrontier(s, n);
        if Pends(s.headerRequests, n) {
          DropUncovers(s.headerRequests, id, n);
        }
      }
    }
  }

  /**
   An honest but short answer (only the first headers of the span) closes the request all the same.
   Coverage survives exactly when every unanswered number of the span is spared: it is below the local
   head, stored already, given up before, or above everything else that was asked for or stored.
   */
  lemma ShortAnswerExactly(c: Config, s: State, id: RequestId, ms: seq<HeaderMsg>, lost: iset<nat>)
    requires Sound(c, s) && Covered(s, lost) && id in s.headerRequests
    requires 0 < |ms| <= s.headerRequests[id].what.count
    requires Answers(ms, Span(s.headerRequests[id].what.start, |ms|))
    ensures var span := s.headerRequests[id].what;
            Covered(OnHeaders(s, ms).0, lost) <==>
            forall n: nat :: span.start + |ms| <= n < span.start + span.count ==>
              Spared(s, DropStart(s.headerRequests, span.start), lost, n)
  {
    var span := s.headerRequests[id].what;
    var t := OnHeaders(s, ms).0;
    if Covered(t, lost) {
      forall n: nat | span.start + |ms| <= n < span.start + span.count
        ensures Spared(s, DropStart(s.headerRequests, span.start), lost, n)
      {
        UnansweredNumber(c, s, id, ms, n);
        assert !UpToFrontier(t, n) || n in t.headers || n in lost;
      }
    } else if forall n: nat :: span.start + |ms| <= n < span.start + span.count ==>
        Spared(s, DropStart(s.headerRequests, span.start), lost, n) {
      ShortAnswerCovers(c, s, id, ms, lost);
    }
  }

  // ---------- A number that is really lost ----------

  /** Room for two requests of two headers each. */
  const TWO_BY_TWO: Config := Config(2, 1, 5, 1, 2, 1)

  function HeaderOf(n: nat): HeaderMsg { HeaderMsg(n, n + 1, n) }

  /** Block 4 is heard of, and the headers 1, 2 and 3, 4 are asked for. */
  lemma {:induction false} TwoSpansAsked()
    ensures var s := PollHeaders(TWO_BY_TWO, OnPeerStatus(Init(0), "peer", 4, 5)).0;
      && s.headerRequests == map[1 := Request(Span(1, 2), "peer", 0, 0), 2 := Request(Span(3, 2), "peer", 0, 0)]
      && s.phase == DownloadingHeaders && s.headers == map[] && s.localHead == 0
          && s.target == Some(Target(4, 5, "peer"))
  {
    var s := OnPeerStatus(Init(0), "peer", 4, 5);
    assert FirstFree(s) == 1;
    assert NewSpans(5, 4, 2, 0) == [];
    assert NewSpans(3, 4, 2, 1) == [Span(3, 2)];
    assert NewSpans(1, 4, 2, 2) == [Span(1, 2), Span(3, 2)];
    var one := map[1 := Request(Span(1, 2), "peer", 0, 0)];
    assert [Span(1, 2), Span(3, 2)][1..] == [Span(3, 2)];
    assert [Span(3, 2)][1..] == [];
    assert Issue(one, 2, [Span(3, 2)], "peer", 0) == one[2 := Request(Span(3, 2), "peer", 0, 0)];
  }

  /** The first request is answered with header 1 alone, the second in full. */
  lemma {:induction false} ShortThenFull(s: State)
    requires s.headerRequests == map[1 := Request(Span(1, 2), "peer", 0, 0), 2 := Request(Span(3, 2), "peer", 0, 0)]
    requires s.phase == DownloadingHeaders && s.headers == map[] && s.target == Some(Target(4, 5, "peer"))
    ensures var t := OnHeaders(s, [HeaderOf(1)]).0; var u := OnHeaders(t, [HeaderOf(3), HeaderOf(4)]).0;
      && t.headerRequests == map[2 := Request(Span(3, 2), "peer", 0, 0)] && t.headers.Keys == {1}
      && u.headerRequests == map[] && u.headers.Keys == {1, 3, 4} && u.phase == DownloadingBodies
  {
    assert [HeaderOf(1)][1..] == [];
    assert InsertHeaders(map[], [HeaderOf(1)]) == map[1 := Downloaded(HeaderOf(1))];
    var t := OnHeaders(s, [HeaderOf(1)]).0;
    assert [HeaderOf(3), HeaderOf(4)][1..] == [HeaderOf(4)];
    assert [HeaderOf(4)][1..] == [];
    var three := t.headers[3 := Downloaded(HeaderOf(3))];
    assert InsertHeaders(three, [HeaderOf(4)]) == three[4 := Downloaded(HeaderOf(4))];
    var u := OnHeaders(t, [HeaderOf(3), HeaderOf(4)]).0;
    assert u.headers.Keys == {1, 3, 4};
    assert 4 in u.headers.Keys;
  }

  /** A run in which number 2 is lost: the header phase is over, and 2 is neither stored nor pending nor given up. */
  lemma {:induction false} ShortAnswerLoses()
    ensures var es := [Status("peer", 4, 5), PollH, Headers([HeaderOf(1)]), Headers([HeaderOf(3), HeaderOf(4)])];
      && PossibleRun(TWO_BY_TWO, Init(0), es)
      && var s := Run(TWO_BY_TWO, Init(0), es);
      && s.phase == DownloadingBodies && UpToFrontier(s, 2) && 2 !in s.headers && !Pends(s.headerRequests, 2)
  {
    var s1 := OnPeerStatus(Init(0), "peer", 4, 5);
    var s2 := PollHeaders(TWO_BY_TWO, s1).0;
    var s3 := OnHeaders(s2, [HeaderOf(1)]).0;
    var s4 := OnHeaders(s3, [HeaderOf(3), HeaderOf(4)]).0;
    TwoSpansAsked();
    ShortThenFull(s2);
    FourEvents(TWO_BY_TWO, Init(0), s1, s2, s3, s4, Status("peer", 4, 5), PollH, Headers([HeaderOf(1)]),
               Headers([HeaderOf(3), HeaderOf(4)]));
    assert 4 in s4.headers.Keys;
    assert s4.localHead == 0;
  }

  lemma {:induction false} FourEvents(c: Config, s: State, s1: State, s2: State, s3: State, s4: State,
                                      e1: Event, e2: Event, e3: Event, e4: Event)
    requires Possible(c, s, e1) && s1 == Step(c, s, e1) && Possible(c, s1, e2) && s2 == Step(c, s1, e2)
    requires Possible(c, s2, e3) && s3 == Step(c, s2, e3) && Possible(c, s3, e4) && s4 == Step(c, s3, e4)
    ensures PossibleRun(c, s, [e1, e2, e3, e4]) && Run(c, s, [e1, e2, e3, e4]) == s4
  {
    LastTwoOf(c, s2, e3, e4);
    assert [e2, e3, e4][1..] == [e3, e4];
    assert PossibleRun(c, s1, [e2, e3, e4]) && Run(c, s1, [e2, e3, e4]) == s4;
    assert [e1, e2, e3, e4][1..] == [e2, e3, e4];
  }

  lemma {:induction false} LastOf(c: Config, s: State, e: Event)
    requires Possible(c, s, e)
    ensures PossibleRun(c, s, [e]) && Run(c, s, [e]) == Step(c, s, e)
  {
    assert [e][1..] == [];
  }

  lemma {:induction false} LastTwoOf(c: Config, s: State, e: Event, f: Event)
    requires Possible(c, s, e) && Possible(c, Step(c, s, e), f)
    ensures PossibleRun(c, s, [e, f]) && Run(c, s, [e, f]) == Step(c, Step(c, s, e), f)
  {
    assert [e, f][1..] == [f];
    LastOf(c, Step(c, s, e), f);
  }
}

/**
 Body rounds against an honest peer, and the whole sync: from hearing of a higher block to having its
 whole range verified, imported in order and the engine back in `Synced`.
 */
module SyncBodies {
  import opened Wrappers
  import opened Arithmetic
  import opened OrderedKeys
  import opened Sync
  import opened SyncRuns
  import opened SyncTickets
  import opened SyncCoverage
  import opened SyncRounds

  // ---------- Marking bodies ----------

  function MissingSet(headers: Headers): set<nat> {
    set n | n in headers && !headers[n].bodyDownloaded
  }

  /** `headers` with the bodies of the numbers in `ns` downloaded. */
  function WithBodies(headers: Headers, ns: set<nat>): Headers {
    map n | n in headers :: if n in ns then headers[n].(bodyDownloaded := true) else headers[n]
  }

  /** Every stored header carries the chain's hash, and the stored numbers have distinct hashes. */
  ghost predicate DistinctHashes(headers: Headers, chain: Chain) {
    && (forall n :: n in headers ==> headers[n].hash == chain(n))
    && (forall a, b :: a in headers && b in headers && a != b ==> chain(a) != chain(b))
  }

  function ChainHashes(chain: Chain, ns: seq<nat>): (r: seq<Hash>)
    ensures |r| == |ns|
    ensures forall i :: 0 <= i < |ns| ==> r[i] == chain(ns[i])
  {
    seq(|ns|, i requires 0 <= i < |ns| => chain(ns[i]))
  }

  lemma TakerOfHash(headers: Headers, chain: Chain, n: nat)
    requires DistinctHashes(headers, chain) && n in MissingSet(headers)
    ensures Taker(headers, chain(n)) == Some(n)
  {
    assert Wanting(headers, chain(n)) == {n};
  }

  lemma FirstMarked(headers: Headers, chain: Chain, ns: seq<nat>)
    requires DistinctHashes(headers, chain) && Distinct(ns) && ns != []
    requires forall n :: n in ns ==> n in MissingSet(headers)
    ensures Taker(headers, chain(ns[0])) == Some(ns[0])
    ensures var first := WithBodies(headers, {ns[0]});
            && Mark(headers, Some(ns[0])) == first
            && DistinctHashes(first, chain)
            && (forall n :: n in ns[1..] ==> n in MissingSet(first))
            && WithBodies(first, set n | n in ns[1..]) == WithBodies(headers, set n | n in ns)
  {
    assert ns[0] in ns;
    TakerOfHash(headers, chain, ns[0]);
    assert ns == [ns[0]] + ns[1..];
    assert (set n | n in ns) == {ns[0]} + set n | n in ns[1..];
  }

  /** Each hash of a missing body completes exactly the header it belongs to. */
  lemma {:induction false} MarksExactly(headers: Headers, chain: Chain, ns: seq<nat>)
    requires DistinctHashes(headers, chain) && Distinct(ns)
    requires forall n :: n in ns ==> n in MissingSet(headers)
    ensures MarkBodies(headers, ChainHashes(chain, ns)).0 == WithBodies(headers, set n | n in ns)
    ensures MarkBodies(headers, ChainHashes(chain, ns)).1 == |ns|
    decreases |ns|
  {
    if ns == [] {
      assert WithBodies(headers, set n | n in ns) == headers;
    } else {
      FirstMarked(headers, chain, ns);
      assert ChainHashes(chain, ns)[1..] == ChainHashes(chain, ns[1..]);
      MarksExactly(WithBodies(headers, {ns[0]}), chain, ns[1..]);
    }
  }

  // ---------- Chunks ----------

  ghost predicate NoneShared<T>(a: seq<T>, b: seq<T>) {
    forall x :: x in a ==> x !in b
  }

  /** The chunks hold together what the sequence holds. */
  lemma {:induction false} ChunksCover<T>(s: seq<T>, n: nat, x: T)
    requires n > 0
    ensures x in s <==> InSome(Chunks(s, n), x)
    decreases |s|
  {
    var cs := Chunks(s, n);
    if |s| > n {
      var rest := Chunks(s[n..], n);
      ChunksCover(s[n..], n, x);
      assert s == s[..n] + s[n..];
      InSomeCons(s[..n], rest, x);
    } else if s != [] {
      InSomeCons(s, [], x);
      assert [s] + [] == cs;
    }
  }

  lemma {:induction false} InSomeCons<T>(c: seq<T>, cs: seq<seq<T>>, x: T)
    ensures InSome([c] + cs, x) <==> x in c || InSome(cs, x)
  {
    var all := [c] + cs;
    if x in c { assert x in all[0]; }
    if k :| 0 <= k < |cs| && x in cs[k] { assert x in all[k + 1]; }
    if k :| 0 <= k < |all| && x in all[k] && k > 0 { assert x in cs[k - 1]; }
  }

  ghost predicate ChunksShareNone<T>(cs: seq<seq<T>>) {
    forall i, j :: 0 <= i < |cs| && 0 <= j < |cs| && i != j ==> NoneShared(cs[i], cs[j])
  }

  lemma {:induction false} ApartCons<T>(c: seq<T>, cs: seq<seq<T>>)
    requires ChunksShareNone(cs) && forall x :: x in c ==> !InSome(cs, x)
    ensures ChunksShareNone([c] + cs)
  {
    var all := [c] + cs;
    forall i, j | 0 <= i < |all| && 0 <= j < |all| && i != j
      ensures NoneShared(all[i], all[j])
    {
      if i > 0 && j > 0 {
        assert NoneShared(cs[i - 1], cs[j - 1]);
      } else {
        forall x | x in all[if i > 0 then i else j]
          ensures x !in c
        {
          assert x in cs[if i > 0 then i - 1 else j - 1];
          assert InSome(cs, x);
        }
      }
    }
  }

  lemma {:induction false} ChunksApart<T>(s: seq<T>, n: nat)
    requires n > 0 && Distinct(s)
    ensures ChunksShareNone(Chunks(s, n))
    decreases |s|
  {
    if |s| > n {
      DistinctParts(s, n);
      ChunksApart(s[n..], n);
      forall x | x in s[..n]
        ensures !InSome(Chunks(s[n..], n), x)
      {
        ChunksCover(s[n..], n, x);
      }
      ApartCons(s[..n], Chunks(s[n..], n));
    }
  }

  lemma {:induction false} DistinctParts<T>(s: seq<T>, n: nat)
    requires Distinct(s) && n <= |s|
    ensures Distinct(s[..n]) && Distinct(s[n..]) && forall x :: x in s[..n] ==> x !in s[n..]
  {}

  lemma {:induction false} ChunksDistinct<T>(s: seq<T>, n: nat, k: nat)
    requires n > 0 && Distinct(s) && k < |Chunks(s, n)|
    ensures Distinct(Chunks(s, n)[k])
    decreases |s|
  {
    if |s| > n {
      DistinctParts(s, n);
      if k > 0 { ChunksDistinct(s[n..], n, k - 1); }
    }
  }

  lemma {:induction false} ChunksPartition<T>(s: seq<T>, n: nat)
    requires n > 0 && Distinct(s)
    ensures var cs := Chunks(s, n);
            && (forall k :: 0 <= k < |cs| ==> Distinct(cs[k]) && cs[k] != [])
            && (forall x :: x in s <==> InSome(cs, x))
            && (forall i, j :: 0 <= i < |cs| && 0 <= j < |cs| && i != j ==> NoneShared(cs[i], cs[j]))
  {
    var cs := Chunks(s, n);
    forall k | 0 <= k < |cs|
      ensures Distinct(cs[k])
    {
      ChunksDistinct(s, n, k);
    }
    forall x
      ensures x in s <==> InSome(cs, x)
    {
      ChunksCover(s, n, x);
    }
    ChunksApart(s, n);
  }

  ghost predicate InSome<T>(cs: seq<seq<T>>, x: T) {
    exists k :: 0 <= k < |cs| && x in cs[k]
  }

  /** `hashes` are the chain's hashes of the numbers in `chunks`. */
  ghost predicate HashChunks(chain: Chain, chunks: seq<seq<nat>>, hashes: seq<seq<Hash>>) {
    |hashes| == |chunks| && forall k :: 0 <= k < |chunks| ==> hashes[k] == ChainHashes(chain, chunks[k])
  }

  lemma {:induction false} ChunksOfHashes(chain: Chain, ns: seq<nat>, n: nat)
    requires n > 0
    ensures HashChunks(chain, Chunks(ns, n), Chunks(ChainHashes(chain, ns), n))
    decreases |ns|
  {
    if |ns| > n {
      ChunksOfHashes(chain, ns[n..], n);
      assert ChainHashes(chain, ns)[n..] == ChainHashes(chain, ns[n..]);
      assert ChainHashes(chain, ns)[..n] == ChainHashes(chain, ns[..n]);
    }
  }

  // ---------- Body rounds ----------

  ghost function AnswerBodies(s: State, order: seq<Ticket<seq<Hash>>>): State
    decreases |order|
  {
    if order == [] then s else AnswerBodies(OnBodies(s, order[0].what).0, order[1..])
  }

  ghost function BodyRound(c: Config, s: State, order: seq<Ticket<seq<Hash>>>): State
    requires c.bodiesPerRequest > 0
  {
    AnswerBodies(PollBodies(c, s).0, order)
  }

  /** A round as a function of the state and the order of the answers, and the tickets that its poll returns. */
  type Rounding = (State, seq<Ticket<seq<Hash>>>) -> State

  type Asking = State -> seq<Ticket<seq<Hash>>>

  ghost function Rounds(round: Rounding, s: State, orders: seq<seq<Ticket<seq<Hash>>>>): State
    decreases |orders|
  {
    if orders == [] then s else Rounds(round, round(s, orders[0]), orders[1..])
  }

  ghost predicate RoundsLegal(round: Rounding, asks: Asking, s: State, orders: seq<seq<Ticket<seq<Hash>>>>)
    decreases |orders|
  {
    orders == [] || (IsOrder(orders[0], SetOf(asks(s))) && RoundsLegal(round, asks, round(s, orders[0]), orders[1..]))
  }

  ghost function RoundOf(c: Config): Rounding
    requires c.bodiesPerRequest > 0
  {
    (s: State, order: seq<Ticket<seq<Hash>>>) => BodyRound(c, s, order)
  }

  ghost function AsksOf(c: Config): Asking
    requires c.bodiesPerRequest > 0
  {
    (s: State) => PollBodies(c, s).1
  }

  /** Every round answers each ticket of its poll once. */
  ghost predicate BodyRoundsLegal(c: Config, s: State, orders: seq<seq<Ticket<seq<Hash>>>>)
    requires c.bodiesPerRequest > 0
  {
    RoundsLegal(RoundOf(c), AsksOf(c), s, orders)
  }

  ghost function BodyRounds(c: Config, s: State, orders: seq<seq<Ticket<seq<Hash>>>>): State
    requires c.bodiesPerRequest > 0
  {
    Rounds(RoundOf(c), s, orders)
  }

  ghost function Grouped(groups: map<RequestId, seq<nat>>): set<nat> {
    set id, n | id in groups && n in groups[id] :: n
  }

  /** Within a body round: each pending request asks for its own group of missing numbers. */
  ghost predicate Fetching(s: State, chain: Chain, groups: map<RequestId, seq<nat>>) {
    && s.phase == DownloadingBodies && s.headers != map[]
    && DistinctHashes(s.headers, chain)
    && groups.Keys == s.bodyRequests.Keys
    && (forall id :: id in groups ==> s.bodyRequests[id].what == ChainHashes(chain, groups[id]))
    && Separate(groups)
    && Grouped(groups) <= MissingSet(s.headers)
  }

  /** The groups are non-empty, without repetition, and pairwise disjoint. */
  ghost predicate Separate(groups: map<RequestId, seq<nat>>) {
    && (forall id :: id in groups ==> groups[id] != [] && Distinct(groups[id]))
    && (forall i, j :: i in groups && j in groups && i != j ==> NoneShared(groups[i], groups[j]))
  }

  lemma DropsOnlyTheGroup(s: State, chain: Chain, groups: map<RequestId, seq<nat>>, id: RequestId)
    requires Fetching(s, chain, groups) && id in groups
    ensures DropAnswered(s.bodyRequests, s.bodyRequests[id].what) == s.bodyRequests - {id}
  {
    var hashes := s.bodyRequests[id].what;
    forall j | j in s.bodyRequests && j != id
      ensures !(forall h :: h in s.bodyRequests[j].what ==> h in hashes)
    {
      var n := groups[j][0];
      assert n in groups[j];
      var h := s.bodyRequests[j].what[0];
      assert h in s.bodyRequests[j].what && h == chain(n);
      assert NoneShared(groups[id], groups[j]);
      forall i | 0 <= i < |hashes|
        ensures hashes[i] != h
      {
        var m := groups[id][i];
        assert m in groups[id];
        assert m in Grouped(groups) && n in Grouped(groups);
      }
    }
  }

  lemma FetchOne(s: State, chain: Chain, groups: map<RequestId, seq<nat>>, id: RequestId)
    requires Fetching(s, chain, groups) && id in groups
    ensures var t := OnBodies(s, s.bodyRequests[id].what).0;
            && t.headers == WithBodies(s.headers, set n | n in groups[id])
            && t.bodyRequests == s.bodyRequests - {id}
            && t == s.(headers := t.headers, bodyRequests := t.bodyRequests, phase := t.phase)
            && t.phase == (if t.bodyRequests == map[] && MissingSet(t.headers) == {} then Verifying
                else DownloadingBodies)
  {
    assert forall n :: n in groups[id] ==> n in Grouped(groups);
    MarksExactly(s.headers, chain, groups[id]);
    DropsOnlyTheGroup(s, chain, groups, id);
    var t := OnBodies(s, s.bodyRequests[id].what).0;
    assert t.headers.Keys == s.headers.Keys;
    assert AllDownloaded(t.headers) <==> MissingSet(t.headers) == {} by {
      if MissingSet(t.headers) == {} {
        forall n | n in t.headers
          ensures t.headers[n].bodyDownloaded
        {
          assert n !in MissingSet(t.headers);
        }
      }
    }
  }

  lemma FetchKeeps(s: State, t: State, chain: Chain, groups: map<RequestId, seq<nat>>, id: RequestId)
    requires Fetching(s, chain, groups) && id in groups
    requires t == s.(headers := WithBodies(s.headers, set n | n in groups[id]), bodyRequests := s.bodyRequests - {id})
    ensures Fetching(t, chain, groups - {id})
  {
    assert t.headers.Keys == s.headers.Keys;
    assert DistinctHashes(t.headers, chain);
    var rest := groups - {id};
    forall n | n in Grouped(rest)
      ensures n in MissingSet(t.headers)
    {
      var j :| j in rest && n in rest[j];
      assert NoneShared(groups[j], groups[id]);
      assert n in groups[j] && n in Grouped(groups);
    }
  }

  lemma {:induction false} FetchEvery(s: State, chain: Chain, groups: map<RequestId, seq<nat>>,
                                      order: seq<Ticket<seq<Hash>>>)
    requires Fetching(s, chain, groups) && order != [] && Outstanding(order, s.bodyRequests)
    ensures var t := AnswerBodies(s, order);
            && t.headers == WithBodies(s.headers, Grouped(groups))
            && t == s.(headers := t.headers, bodyRequests := map[], phase := t.phase)
            && t.phase == (if MissingSet(t.headers) == {} then Verifying else DownloadingBodies)
    decreases |order|
  {
    var id := order[0].id;
    var t := OnBodies(s, order[0].what).0;
    OutstandingTail(order, s.bodyRequests);
    FetchOne(s, chain, groups, id);
    var rest := groups - {id};
    assert rest.Keys == groups.Keys - {id};
    GroupedWith(s.headers, groups, id);
    if order[1..] != [] {
      FetchKeeps(s, t, chain, groups, id);
      FetchEvery(t, chain, rest, order[1..]);
    } else {
      assert rest.Keys == t.bodyRequests.Keys == {};
      assert Grouped(rest) == {};
      assert WithBodies(t.headers, {}) == t.headers;
    }
  }

  lemma GroupedWith(headers: Headers, groups: map<RequestId, seq<nat>>, id: RequestId)
    requires id in groups
    ensures WithBodies(WithBodies(headers, set n | n in groups[id]), Grouped(groups - {id})) ==
        WithBodies(headers, Grouped(groups))
  {
    var rest := groups - {id};
    forall n
      ensures n in Grouped(groups) <==> n in Grouped(rest) || n in groups[id]
    {
      if n in Grouped(groups) {
        var j :| j in groups && n in groups[j];
        if j != id { assert j in rest && n in rest[j]; }
      }
      if n in Grouped(rest) {
        var j :| j in rest && n in rest[j];
        assert j in groups && n in groups[j];
      }
    }
  }

  lemma HashesAreChainHashes(headers: Headers, chain: Chain, ns: seq<nat>)
    requires DistinctHashes(headers, chain) && forall n :: n in ns ==> n in headers
    ensures HashesOf(headers, ns) == ChainHashes(chain, ns)
  {
  }

  /** The numbers whose bodies the next poll asks for: the lowest missing ones, as many as there is room for. */
  function NextBodies(c: Config, s: State): (r: seq<nat>)
    ensures Distinct(r)
    ensures forall n :: n in r ==> n in MissingSet(s.headers)
  {
    Take(Missing(s.headers), BodyLimit(c, |s.bodyRequests|))
  }

  ghost function Groups(id: RequestId, chunks: seq<seq<nat>>, ids: set<RequestId>): map<RequestId, seq<nat>>
    requires forall i :: i in ids ==> id <= i < id + |chunks|
  {
    map i | i in ids :: chunks[i - id]
  }

  /** The chunks of `ns`, numbered from `id`, as the groups of the pending requests. */
  lemma {:induction false} GroupsPartition(id: RequestId, ns: seq<nat>, n: nat, chunks: seq<seq<nat>>,
      ids: set<RequestId>)
    requires n > 0 && Distinct(ns) && chunks == Chunks(ns, n)
    requires forall i: nat :: i in ids <==> id <= i < id + |chunks|
    ensures Separate(Groups(id, chunks, ids))
    ensures Grouped(Groups(id, chunks, ids)) == set m | m in ns
  {
    ChunksPartition(ns, n);
    var groups := Groups(id, chunks, ids);
    forall i, j | i in groups && j in groups && i != j
      ensures NoneShared(groups[i], groups[j])
    {
      assert NoneShared(chunks[i - id], chunks[j - id]);
    }
    forall m
      ensures m in Grouped(groups) <==> m in ns
    {
      if InSome(chunks, m) {
        var k :| 0 <= k < |chunks| && m in chunks[k];
        assert id + k in groups && m in groups[id + k];
      }
      if m in Grouped(groups) {
        var i :| i in groups && m in groups[i];
        assert m in chunks[i - id];
      }
    }
  }

  lemma IssuedFetches(s: State, t: State, chain: Chain, chunks: seq<seq<nat>>, hashes: seq<seq<Hash>>, peer: PeerId)
    requires s.phase == DownloadingBodies && s.bodyRequests == map[] && s.headers != map[]
    requires DistinctHashes(s.headers, chain) && HashChunks(chain, chunks, hashes)
    requires t == s.(bodyRequests := t.bodyRequests, nextId := t.nextId)
    requires Issued(s.bodyRequests, s.nextId, hashes, peer, s.tick, t.bodyRequests)
    requires var groups := Groups(s.nextId, chunks, t.bodyRequests.Keys);
             Separate(groups) && Grouped(groups) <= MissingSet(s.headers)
    ensures Fetching(t, chain, Groups(s.nextId, chunks, t.bodyRequests.Keys))
  {
    forall i | i in t.bodyRequests
      ensures t.bodyRequests[i].what == ChainHashes(chain, chunks[i - s.nextId])
    {
      assert t.bodyRequests[i].what == hashes[i - s.nextId];
    }
  }

  lemma PollShape(c: Config, s: State, chain: Chain)
    requires c.bodiesPerRequest > 0 && s.phase == DownloadingBodies && DistinctHashes(s.headers, chain)
    ensures var t := PollBodies(c, s).0;
            && t == s.(bodyRequests := t.bodyRequests, nextId := t.nextId)
            && t.bodyRequests == Issue(s.bodyRequests, s.nextId,
                Chunks(ChainHashes(chain, NextBodies(c, s)), c.bodiesPerRequest),
                                       PeerOrEmpty(TargetPeer(s.target)), s.tick)
  {
    HashesAreChainHashes(s.headers, chain, NextBodies(c, s));
  }

  lemma PollFetches(c: Config, s: State, chain: Chain) returns (groups: map<RequestId, seq<nat>>)
    requires c.bodiesPerRequest > 0 && s.phase == DownloadingBodies && s.bodyRequests == map[] && s.headers != map[]
    requires DistinctHashes(s.headers, chain)
    ensures var t := PollBodies(c, s).0;
            Fetching(t, chain, groups) && t == s.(bodyRequests := t.bodyRequests, nextId := t.nextId)
    ensures Grouped(groups) == set n | n in NextBodies(c, s)
  {
    var ns := NextBodies(c, s);
    var t := PollBodies(c, s).0;
    var peer := PeerOrEmpty(TargetPeer(s.target));
    var chunks := Chunks(ns, c.bodiesPerRequest);
    var hashes := Chunks(ChainHashes(chain, ns), c.bodiesPerRequest);
    PollShape(c, s, chain);
    ChunksOfHashes(chain, ns, c.bodiesPerRequest);
    IssueAdds(s.bodyRequests, s.nextId, hashes, peer, s.tick);
    assert forall i: nat :: i in t.bodyRequests <==> s.nextId <= i < s.nextId + |chunks|;
    groups := Groups(s.nextId, chunks, t.bodyRequests.Keys);
    GroupsPartition(s.nextId, ns, c.bodiesPerRequest, chunks, t.bodyRequests.Keys);
    IssuedFetches(s, t, chain, chunks, hashes, peer);
  }

  lemma NoBodiesNoRequests(groups: map<RequestId, seq<nat>>, headers: Headers)
    requires groups.Keys == {}
    ensures Grouped(groups) == {} && WithBodies(headers, Grouped(groups)) == headers
  {
    assert Grouped(groups) == {};
    assert WithBodies(headers, {}) == headers;
  }

  lemma BodyRoundMarks(c: Config, s: State, chain: Chain, order: seq<Ticket<seq<Hash>>>)
    requires c.bodiesPerRequest > 0 && s.phase == DownloadingBodies && s.bodyRequests == map[] && s.headers != map[]
    requires DistinctHashes(s.headers, chain) && MissingSet(s.headers) != {}
    requires IsOrder(order, SetOf(PollBodies(c, s).1))
    ensures var t := BodyRound(c, s, order);
            && t.headers == WithBodies(s.headers, set n | n in NextBodies(c, s))
            && t == s.(headers := t.headers, nextId := t.nextId, phase := t.phase)
            && t.phase == (if MissingSet(t.headers) == {} then Verifying else DownloadingBodies)
  {
    var groups := PollFetches(c, s, chain);
    var (polled, tickets) := PollBodies(c, s);
    BodyTicketsExactly(c, s);
    OrderOutstanding(tickets, polled.bodyRequests, TargetPeer(s.target), s.tick, order);
    PolledMarks(s, polled, chain, groups, order);
  }

  lemma {:induction false} PolledMarks(s: State, polled: State, chain: Chain, groups: map<RequestId, seq<nat>>,
                                       order: seq<Ticket<seq<Hash>>>)
    requires s.phase == DownloadingBodies && s.bodyRequests == map[] && MissingSet(s.headers) != {}
    requires polled == s.(bodyRequests := polled.bodyRequests, nextId := polled.nextId)
    requires Fetching(polled, chain, groups) && Outstanding(order, polled.bodyRequests)
    ensures var t := AnswerBodies(polled, order);
            && t.headers == WithBodies(s.headers, Grouped(groups))
            && t == s.(headers := t.headers, nextId := t.nextId, phase := t.phase)
            && t.phase == (if MissingSet(t.headers) == {} then Verifying else DownloadingBodies)
  {
    FetchWhole(polled, chain, groups, order);
  }

  /** As `FetchEvery`, also when there is nothing to fetch. */
  lemma {:induction false} FetchWhole(s: State, chain: Chain, groups: map<RequestId, seq<nat>>,
                                      order: seq<Ticket<seq<Hash>>>)
    requires Fetching(s, chain, groups) && Outstanding(order, s.bodyRequests) && MissingSet(s.headers) != {}
    requires s.phase == DownloadingBodies && s.bodyRequests.Keys == groups.Keys
    ensures var t := AnswerBodies(s, order);
            && t.headers == WithBodies(s.headers, Grouped(groups))
            && t == s.(headers := t.headers, bodyRequests := map[], phase := t.phase)
            && t.phase == (if MissingSet(t.headers) == {} then Verifying else DownloadingBodies)
  {
    if order == [] {
      assert TicketIds(order) == [];
      NoneListed(groups.Keys);
      NoBodiesNoRequests(groups, s.headers);
    } else {
      FetchEvery(s, chain, groups, order);
    }
  }

  lemma NoneListed<T>(keys: set<T>)
    requires forall k :: k in keys <==> k in []
    ensures keys == {}
  {}

  // ---------- Counting rounds ----------

  lemma MarkingShrinks(headers: Headers, ns: seq<nat>)
    requires Distinct(ns) && forall n :: n in ns ==> n in MissingSet(headers)
    ensures MissingSet(WithBodies(headers, set n | n in ns)) == MissingSet(headers) - set n | n in ns
    ensures |MissingSet(WithBodies(headers, set n | n in ns))| == |MissingSet(headers)| - |ns|
  {
    var done := set n | n in ns;
    assert MissingSet(WithBodies(headers, done)) == MissingSet(headers) - done;
    SetOfSize(ns);
    assert done == SetOf(ns);
    assert done <= MissingSet(headers);
  }

  /** The numbers above `head` up to the target carry the chain's headers; `left` bodies are still missing. */
  ghost predicate Loading(s: State, chain: Chain, head: nat, target: Target, left: nat) {
    && s.localHead == head < target.bestBlock && s.target == Some(target)
    && s.headerRequests == map[] && s.bodyRequests == map[] && s.importReady == []
    && (forall n: nat :: n in s.headers <==> head < n <= target.bestBlock)
    && (forall n :: n in s.headers ==>
          s.headers[n].hash == chain(n) && (n > 0 ==> s.headers[n].parentHash == chain(n - 1)))
    && |MissingSet(s.headers)| == left
    && s.phase == (if left == 0 then Verifying else DownloadingBodies)
  }

  ghost predicate DistinctAbove(chain: Chain, head: nat, target: nat) {
    forall a, b :: head < a <= target && head < b <= target && a != b ==> chain(a) != chain(b)
  }

  /** Bodies asked for in one round. */
  function PerBodyRound(c: Config): nat { c.maxBodyRequests * c.bodiesPerRequest }

  /** Bodies asked for in `k` rounds with enough missing. */
  function RoomOf(c: Config, k: nat): nat { Product(k, PerBodyRound(c)) }

  lemma NextBodiesSize(c: Config, s: State)
    requires s.bodyRequests == map[]
    ensures |NextBodies(c, s)| == Min(|MissingSet(s.headers)|, PerBodyRound(c))
  {
    AscendingSize(MissingSet(s.headers));
    assert Missing(s.headers) == Ascending(MissingSet(s.headers));
    assert BodyLimit(c, |s.bodyRequests|) == PerBodyRound(c);
  }

  lemma LoadingKept(s: State, t: State, chain: Chain, head: nat, target: Target, left: nat, ns: seq<nat>)
    requires Loading(s, chain, head, target, left) && Distinct(ns) && forall n :: n in ns ==> n in MissingSet(s.headers)
    requires |ns| <= left
    requires t == s.(headers := WithBodies(s.headers, set n | n in ns), nextId := t.nextId, phase := t.phase)
    requires t.phase == (if MissingSet(t.headers) == {} then Verifying else DownloadingBodies)
    ensures Loading(t, chain, head, target, left - |ns|)
  {
    MarkingShrinks(s.headers, ns);
    assert t.headers.Keys == s.headers.Keys;
  }

  lemma BodyRoundShrinks(c: Config, s: State, chain: Chain, head: nat, target: Target, left: nat,
                         order: seq<Ticket<seq<Hash>>>)
    requires c.bodiesPerRequest > 0 && Loading(s, chain, head, target, left)
        && DistinctAbove(chain, head, target.bestBlock)
    requires IsOrder(order, SetOf(PollBodies(c, s).1))
    ensures Loading(BodyRound(c, s, order), chain, head, target, SaturatingSub(left, PerBodyRound(c)))
  {
    if left == 0 {
      NothingOutstanding(PollBodies(c, s).1, order);
    } else {
      assert head + 1 in s.headers;
      assert DistinctHashes(s.headers, chain);
      BodyRoundMarks(c, s, chain, order);
      NextBodiesSize(c, s);
      LoadingKept(s, BodyRound(c, s, order), chain, head, target, left, NextBodies(c, s));
    }
  }

  /** What is left of a count after `k` rounds that each take `perRound` of it. */
  function LeftAfter(left: nat, perRound: nat, k: nat): nat {
    if k == 0 then left else LeftAfter(SaturatingSub(left, perRound), perRound, k - 1)
  }

  lemma {:induction false} LeftAfterIs(left: nat, perRound: nat, k: nat)
    ensures LeftAfter(left, perRound, k) == SaturatingSub(left, Product(k, perRound))
    decreases k
  {
    if k == 0 {
      assert k * perRound == 0;
    } else {
      LeftAfterIs(SaturatingSub(left, perRound), perRound, k - 1);
      assert k * perRound == (k - 1) * perRound + perRound;
    }
  }

  /** In each legal round what `holds` counts falls by `perRound`. */
  ghost predicate Shrinking(round: Rounding, asks: Asking, holds: (State, nat) -> bool, perRound: nat) {
    forall s: State, left: nat, order: seq<Ticket<seq<Hash>>> {:trigger round(s, order), holds(s, left)} ::
      holds(s, left) && IsOrder(order, SetOf(asks(s))) ==> holds(round(s, order), SaturatingSub(left, perRound))
  }

  lemma {:induction false} RoundsLeave(round: Rounding, asks: Asking, holds: (State, nat) -> bool, perRound: nat,
                                       s: State, left: nat, orders: seq<seq<Ticket<seq<Hash>>>>)
    requires Shrinking(round, asks, holds, perRound) && holds(s, left) && RoundsLegal(round, asks, s, orders)
    ensures holds(Rounds(round, s, orders), LeftAfter(left, perRound, |orders|))
    decreases |orders|
  {
    if orders != [] {
      RoundsLeave(round, asks, holds, perRound, round(s, orders[0]), SaturatingSub(left, perRound), orders[1..]);
    }
  }

  /** Each fully answered body round takes its room off what is missing, down to nothing. */
  lemma {:induction false} BodyRoundsShrink(c: Config, s: State, chain: Chain, head: nat, target: Target, left: nat,
                                            orders: seq<seq<Ticket<seq<Hash>>>>)
    requires c.bodiesPerRequest > 0 && Loading(s, chain, head, target, left)
    requires DistinctAbove(chain, head, target.bestBlock) && BodyRoundsLegal(c, s, orders)
    ensures Loading(BodyRounds(c, s, orders), chain, head, target, SaturatingSub(left, RoomOf(c, |orders|)))
  {
    var holds := (t: State, n: nat) => Loading(t, chain, head, target, n);
    forall t: State, n: nat, order: seq<Ticket<seq<Hash>>> | holds(t, n) && IsOrder(order, SetOf(AsksOf(c)(t)))
      ensures holds(RoundOf(c)(t, order), SaturatingSub(n, PerBodyRound(c)))
    {
      BodyRoundShrinks(c, t, chain, head, target, n, order);
    }
    RoundsLeave(RoundOf(c), AsksOf(c), holds, PerBodyRound(c), s, left, orders);
    LeftAfterIs(left, PerBodyRound(c), |orders|);
  }

  // ---------- The whole sync ----------

  lemma IntervalSize(keys: set<nat>, lo: nat, hi: nat)
    requires lo <= hi && forall n: nat :: n in keys <==> lo < n <= hi
    ensures |keys| == hi - lo
  {
    AscendingRange(keys, lo + 1, hi);
    AscendingSize(keys);
  }

  lemma HeadersLoaded(s: State, chain: Chain, head: nat, target: Target)
    requires AtFrontier(s, chain, target.bestBlock) && s.localHead == head && s.target == Some(target)
    ensures Loading(s, chain, head, target, target.bestBlock - head)
  {
    assert MissingSet(s.headers) == s.headers.Keys;
    IntervalSize(s.headers.Keys, head, target.bestBlock);
  }

  /** Header rounds followed by body rounds, from the moment a new engine hears of block `target`. */
  ghost function AfterSync(c: Config, head: nat, peer: PeerId, target: nat, hash: Hash, chain: Chain,
                           headerOrders: seq<seq<Ticket<Span>>>, bodyOrders: seq<seq<Ticket<seq<Hash>>>>): State
    requires c.bodiesPerRequest > 0
  {
    BodyRounds(c, HeaderRounds(c, Started(head, peer, target, hash), headerOrders, chain), bodyOrders)
  }

  ghost predicate SyncLegal(c: Config, head: nat, peer: PeerId, target: nat, hash: Hash, chain: Chain,
                            headerOrders: seq<seq<Ticket<Span>>>, bodyOrders: seq<seq<Ticket<seq<Hash>>>>)
    requires c.bodiesPerRequest > 0
  {
    && HeaderRoundsLegal(c, Started(head, peer, target, hash), headerOrders, chain)
    && BodyRoundsLegal(c, HeaderRounds(c, Started(head, peer, target, hash), headerOrders, chain), bodyOrders)
  }

  /** Enough rounds of each kind, for these batch sizes and this distance. */
  ghost predicate EnoughRounds(c: Config, head: nat, target: nat, headerRounds: nat, bodyRounds: nat)
    requires head < target
  {
    && headerRounds > 0 && target <= head + 1 + headerRounds * (PerRound(c) - 1)
    && target - head <= RoomOf(c, bodyRounds)
  }

  lemma {:induction false} NoBodyRounds(c: Config, s: State, orders: seq<seq<Ticket<seq<Hash>>>>)
    requires c.bodiesPerRequest > 0 && s.phase != DownloadingBodies && s.bodyRequests == map[]
    requires BodyRoundsLegal(c, s, orders)
    ensures BodyRounds(c, s, orders) == s
  {
    forall order: seq<Ticket<seq<Hash>>> | IsOrder(order, SetOf(AsksOf(c)(s)))
      ensures RoundOf(c)(s, order) == s
    {
      NothingOutstanding(PollBodies(c, s).1, order);
    }
    RoundsStay(RoundOf(c), AsksOf(c), s, orders);
  }

  lemma {:induction false} RoundsStay(round: Rounding, asks: Asking, s: State, orders: seq<seq<Ticket<seq<Hash>>>>)
    requires forall order: seq<Ticket<seq<Hash>>> :: IsOrder(order, SetOf(asks(s))) ==> round(s, order) == s
    requires RoundsLegal(round, asks, s, orders)
    ensures Rounds(round, s, orders) == s
    decreases |orders|
  {
    if orders != [] {
      RoundsStay(round, asks, s, orders[1..]);
    }
  }

  /** The sync is ready to verify exactly when enough rounds of both kinds were made. */
  lemma SyncReadyExactly(c: Config, head: nat, peer: PeerId, target: nat, hash: Hash, chain: Chain,
                         headerOrders: seq<seq<Ticket<Span>>>, bodyOrders: seq<seq<Ticket<seq<Hash>>>>)
    requires head < target && DistinctAbove(chain, head, target)
    requires c.headersPerRequest > 0 && c.maxHeaderRequests > 0 && c.bodiesPerRequest > 0
    requires SyncLegal(c, head, peer, target, hash, chain, headerOrders, bodyOrders)
    ensures var s := AfterSync(c, head, peer, target, hash, chain, headerOrders, bodyOrders);
            && (s.phase.Verifying? <==> EnoughRounds(c, head, target, |headerOrders|, |bodyOrders|))
            && (s.phase.Verifying? ==> Loading(s, chain, head, Target(target, hash, peer), 0))
  {
    HeaderRoundsExactly(c, head, peer, target, hash, headerOrders, chain);
    var s := HeaderRounds(c, Started(head, peer, target, hash), headerOrders, chain);
    if s.phase.DownloadingBodies? {
      HeadersLoaded(s, chain, head, Target(target, hash, peer));
      BodiesReadyExactly(c, s, chain, head, Target(target, hash, peer), target - head, bodyOrders);
    } else {
      NoBodyRounds(c, s, bodyOrders);
    }
  }

  /** From the start of the body phase: ready exactly when the rounds have room for all that is missing. */
  lemma {:induction false} BodiesReadyExactly(c: Config, s: State, chain: Chain, head: nat, target: Target, left: nat,
                                              orders: seq<seq<Ticket<seq<Hash>>>>)
    requires c.bodiesPerRequest > 0 && Loading(s, chain, head, target, left)
    requires DistinctAbove(chain, head, target.bestBlock) && BodyRoundsLegal(c, s, orders)
    ensures var t := BodyRounds(c, s, orders);
      && (t.phase.Verifying? <==> left <= RoomOf(c, |orders|))
      && (t.phase.Verifying? ==> Loading(t, chain, head, target, 0))
  {
    BodyRoundsShrink(c, s, chain, head, target, left, orders);
  }

  lemma NothingBroken(headers: Headers, lo: nat, hi: nat, chain: Chain)
    requires lo <= hi && forall n: nat :: n in headers <==> lo <= n <= hi
    requires forall n :: n in headers ==>
      headers[n].hash == chain(n) && (n > 0 ==> headers[n].parentHash == chain(n - 1))
    ensures Ascending(headers.Keys) == Range(lo, hi)
    ensures FirstBroken(headers, Range(lo, hi)) == None
  {
    AscendingRange(headers.Keys, lo, hi);
    var ns := Range(lo, hi);
    forall j, k | 0 <= j && k == j + 1 < |ns|
      ensures ns[j] in headers && ns[k] in headers && Linked(headers, ns[j], ns[k])
    {
      assert ns[j] == lo + j && ns[k] == lo + k;
    }
    FirstUnlinkedIsFirst(headers, ns, 0);
    var r := FirstUnlinked(headers, ns, 0);
    assert r + 1 >= |ns|;
  }

  lemma NothingBefore<T>(a: seq<T>, b: seq<T>)
    requires a == []
    ensures a + b == b
  {
  }

  lemma UnbrokenVerifies(s: State, lo: nat, hi: nat)
    requires lo <= hi
    requires Ascending(s.headers.Keys) == Range(lo, hi) && FirstBroken(s.headers, Range(lo, hi)) == None
    ensures VerifyChain(s).1 == RangeVerified(lo, hi)
    ensures VerifyChain(s).0.importReady == s.importReady + Range(lo, hi)
    ensures VerifyChain(s).0.headers.Keys == s.headers.Keys && VerifyChain(s).0.target == s.target
  {
  }

  lemma VerifiesWhole(s: State, chain: Chain, head: nat, target: Target)
    requires Loading(s, chain, head, target, 0)
    ensures VerifyChain(s).1 == RangeVerified(head + 1, target.bestBlock)
    ensures VerifyChain(s).0.importReady == Range(head + 1, target.bestBlock)
    ensures VerifyChain(s).0.headers.Keys == s.headers.Keys && VerifyChain(s).0.target == s.target
  {
    NothingBroken(s.headers, head + 1, target.bestBlock, chain);
    UnbrokenVerifies(s, head + 1, target.bestBlock);
    NothingBefore(s.importReady, Range(head + 1, target.bestBlock));
  }

  lemma ImportFinishes(s: State, target: Target)
    requires s.target == Some(target) && forall n :: n in s.headers ==> n <= target.bestBlock
    ensures var t := UpdateLocalHead(s, target.bestBlock);
            t.phase == Synced && t.target == None && t.localHead == target.bestBlock && t.headers == map[]
  {
    assert Above(s.headers, target.bestBlock) == map[];
  }

  /**
   With enough rounds, verification succeeds on exactly `head + 1 .. target`, queues these numbers for
   import in order, and importing up to the target leaves the engine `Synced` with no target.
   */
  lemma HonestSyncCompletes(c: Config, head: nat, peer: PeerId, target: nat, hash: Hash, chain: Chain,
                            headerOrders: seq<seq<Ticket<Span>>>, bodyOrders: seq<seq<Ticket<seq<Hash>>>>)
    requires head < target && DistinctAbove(chain, head, target)
    requires c.headersPerRequest > 0 && c.maxHeaderRequests > 0 && c.bodiesPerRequest > 0
    requires SyncLegal(c, head, peer, target, hash, chain, headerOrders, bodyOrders)
    requires EnoughRounds(c, head, target, |headerOrders|, |bodyOrders|)
    ensures var (s, r) := VerifyChain(AfterSync(c, head, peer, target, hash, chain, headerOrders, bodyOrders));
            var t := UpdateLocalHead(s, target);
            && r == RangeVerified(head + 1, target) && s.importReady == Range(head + 1, target)
            && t.phase == Synced && t.target == None && t.localHead == target && t.headers == map[]
  {
    SyncReadyExactly(c, head, peer, target, hash, chain, headerOrders, bodyOrders);
    var s := AfterSync(c, head, peer, target, hash, chain, headerOrders, bodyOrders);
    VerifiesWhole(s, chain, head, Target(target, hash, peer));
    ImportFinishes(VerifyChain(s).0, Target(target, hash, peer));
  }
}

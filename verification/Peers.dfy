/** Peer reputation and connection limits. */
module Peers {
  import opened Wrappers
  import opened OrderedKeys

  type PeerId = nat

  const INITIAL_SCORE := 100
  const DISCONNECT_THRESHOLD := -50
  const BAN_THRESHOLD := -200
  const MAX_SCORE := 500

  datatype ScoreEvent =
    | ValidBlock | ValidHeaders | ValidBodies | PongReceived
    | InvalidBlock | InvalidHeaders | Timeout | DuplicateData | UnsolicitedData | WrongChainId | Decay

  function Delta(e: ScoreEvent): int {
    match e
    case ValidBlock => 10
    case ValidHeaders => 5
    case ValidBodies => 5
    case PongReceived => 1
    case InvalidBlock => -50
    case InvalidHeaders => -30
    case Timeout => -10
    case DuplicateData => -5
    case UnsolicitedData => -3
    case WrongChainId => -100
    case Decay => 0
  }

  datatype Direction = Outbound | Inbound

  datatype Peer = Peer(score: int, direction: Direction, bestBlock: nat, chainId: nat, connected: nat,
                       lastActivity: nat, good: nat, bad: nat, leaving: bool)

  type PeerMap = map<PeerId, Peer>

  datatype Config = Config(maxPeers: nat, maxInbound: nat, maxOutbound: nat, decayInterval: nat, decayAmount: int,
                           chainId: nat)

  /** `banned` gives the tick at which a ban ends; 0 is never. */
  datatype State = State(peers: PeerMap, banned: map<PeerId, nat>, tick: nat, lastDecay: nat)

  const NOBODY: State := State(map[], map[], 0, 0)

  function InDirection(peers: PeerMap, d: Direction): set<PeerId> {
    set p | p in peers && peers[p].direction == d
  }

  function Limit(c: Config, d: Direction): nat {
    if d.Inbound? then c.maxInbound else c.maxOutbound
  }

  predicate IsBanned(s: State, id: PeerId) {
    id in s.banned && (s.banned[id] == 0 || s.tick < s.banned[id])
  }

  /** Nobody has a lower score. */
  ghost predicate IsWorst(peers: PeerMap, worst: PeerId) {
    worst in peers && forall p :: p in peers ==> peers[worst].score <= peers[p].score
  }

  datatype Connection = Connection(state: State, accepted: bool)

  /** A full table loses a peer with the lowest score first, even if the direction limit then refuses the newcomer. */
  function Connect(c: Config, s: State, id: PeerId, d: Direction, worst: Option<PeerId>): Connection {
    if IsBanned(s, id) then Connection(s, false)
    else if |s.peers| >= c.maxPeers && worst.None? then Connection(s, false)
    else
      var room := if |s.peers| >= c.maxPeers then s.(peers := s.peers - {worst.value}) else s;
      if |InDirection(room.peers, d)| >= Limit(c, d) then Connection(room, false)
      else Connection(room.(peers := room.peers[id := Peer(INITIAL_SCORE, d, 0, 0, s.tick, s.tick, 0, 0, false)]), true)
  }

  function Clamp(x: int): int {
    if x < -MAX_SCORE then -MAX_SCORE else if x > MAX_SCORE then MAX_SCORE else x
  }

  function Rated(p: Peer, e: ScoreEvent, tick: nat): Peer {
    var score := Clamp(p.score + Delta(e));
    p.(score := score, lastActivity := tick,
       good := if Delta(e) > 0 then p.good + 1 else p.good,
       bad := if Delta(e) < 0 then p.bad + 1 else p.bad,
       leaving := p.leaving || score <= DISCONNECT_THRESHOLD)
  }

  function Record(s: State, id: PeerId, e: ScoreEvent): State {
    if id !in s.peers then s
    else
      var p := Rated(s.peers[id], e, s.tick);
      s.(peers := s.peers[id := p], banned := if p.score <= BAN_THRESHOLD then s.banned[id := 0] else s.banned)
  }

  function Status(c: Config, s: State, id: PeerId, best: nat, chainId: nat): State {
    if id !in s.peers then s
    else
      var t := s.(peers := s.peers[id := s.peers[id].(bestBlock := best, chainId := chainId, lastActivity := s.tick)]);
      if chainId != 0 && chainId != c.chainId then Record(t, id, WrongChainId) else t
  }

  /** One decay step towards the initial score. */
  function Decayed(score: int, amount: int): int {
    if score > INITIAL_SCORE then (if score - amount > INITIAL_SCORE then score - amount else INITIAL_SCORE)
    else if score < INITIAL_SCORE then (if score + amount < INITIAL_SCORE then score + amount else INITIAL_SCORE)
    else score
  }

  function AllDecayed(peers: PeerMap, amount: int): PeerMap {
    map p | p in peers :: peers[p].(score := Decayed(peers[p].score, amount))
  }

  function Tick(c: Config, s: State): State {
    var tick := s.tick + 1;
    var decays := tick - s.lastDecay >= c.decayInterval;
    State(if decays then AllDecayed(s.peers, c.decayAmount) else s.peers,
          map p | p in s.banned && (s.banned[p] == 0 || tick < s.banned[p]) :: s.banned[p],
          tick, if decays then tick else s.lastDecay)
  }

  class PeerManager {
    const config: Config
    var peers: PeerMap
    var banned: map<PeerId, nat>
    var tick: nat
    var lastDecay: nat

    function View(): State
      reads this
    {
      State(peers, banned, tick, lastDecay)
    }

    constructor (c: Config)
      ensures View() == NOBODY && config == c
    {
      config := c;
      peers, banned, tick, lastDecay := map[], map[], 0, 0;
    }

    method OnPeerConnected(id: PeerId, d: Direction) returns (accepted: bool, ghost worst: Option<PeerId>)
      modifies this
      ensures Connect(config, old(View()), id, d, worst) == Connection(View(), accepted)
      ensures |old(peers)| >= config.maxPeers && worst.Some? ==> IsWorst(old(peers), worst.value)
      ensures worst.None? ==> old(peers) == map[] || |old(peers)| < config.maxPeers || IsBanned(old(View()), id)
    {
      worst := None;
      if IsBanned(View(), id) {
        return false, worst;
      }
      if |peers| >= config.maxPeers {
        var evicted: Option<PeerId>;
        evicted := EvictWorstPeer();
        worst := evicted;
        if evicted.None? {
          return false, worst;
        }
      }
      if |InDirection(peers, d)| >= Limit(config, d) {
        return false, worst;
      }
      peers := peers[id := Peer(INITIAL_SCORE, d, 0, 0, tick, tick, 0, 0, false)];
      accepted := true;
    }

    method EvictWorstPeer() returns (evicted: Option<PeerId>)
      modifies this`peers
      ensures evicted.None? ==> old(peers) == map[] == peers
      ensures evicted.Some? ==> IsWorst(old(peers), evicted.value) && peers == old(peers) - {evicted.value}
    {
      evicted := None;
      var todo := peers.Keys;
      while todo != {}
        invariant todo <= peers.Keys
        invariant evicted.None? ==> todo == peers.Keys
        invariant evicted.Some? ==> evicted.value in peers
        invariant evicted.Some? ==> forall p :: p in peers && p !in todo ==>
            peers[evicted.value].score <= peers[p].score
        decreases todo
      {
        var p :| p in todo;
        todo := todo - {p};
        if evicted.None? || peers[p].score < peers[evicted.value].score {
          evicted := Some(p);
        }
      }
      if evicted.Some? {
        peers := peers - {evicted.value};
      }
    }

    method OnPeerDisconnected(id: PeerId)
      modifies this`peers
      ensures View() == old(View()).(peers := old(peers) - {id})
    {
      peers := peers - {id};
    }

    method RecordEvent(id: PeerId, e: ScoreEvent)
      modifies this`peers, this`banned
      ensures View() == Record(old(View()), id, e)
    {
      if id !in peers {
        return;
      }
      var p := peers[id];
      var delta := Delta(e);
      p := p.(score := Clamp(p.score + delta), lastActivity := tick);
      if delta > 0 {
        p := p.(good := p.good + 1);
      } else if delta < 0 {
        p := p.(bad := p.bad + 1);
      }
      if p.score <= BAN_THRESHOLD {
        banned := banned[id := 0];
        p := p.(leaving := true);
      } else if p.score <= DISCONNECT_THRESHOLD {
        p := p.(leaving := true);
      }
      peers := peers[id := p];
    }

    method UpdatePeerStatus(id: PeerId, best: nat, chainId: nat)
      modifies this`peers, this`banned
      ensures View() == Status(config, old(View()), id, best, chainId)
    {
      if id !in peers {
        return;
      }
      peers := peers[id := peers[id].(bestBlock := best, chainId := chainId, lastActivity := tick)];
      if chainId != 0 && chainId != config.chainId {
        RecordEvent(id, WrongChainId);
      }
    }

    method AdvanceTick()
      modifies this
      ensures View() == Tick(config, old(View()))
    {
      tick := tick + 1;
      if tick - lastDecay >= config.decayInterval {
        lastDecay := tick;
        DecayScores();
      }
      banned := map p | p in banned && (banned[p] == 0 || tick < banned[p]) :: banned[p];
    }

    method DecayScores()
      modifies this`peers
      ensures peers == AllDecayed(old(peers), config.decayAmount)
    {
      var todo := peers.Keys;
      while todo != {}
        invariant todo <= peers.Keys == old(peers).Keys
        invariant forall p :: p in peers && p in todo ==> peers[p] == old(peers)[p]
        invariant forall p :: p in peers && p !in todo ==>
          peers[p] == old(peers)[p].(score := Decayed(old(peers)[p].score, config.decayAmount))
        decreases todo
      {
        var p :| p in todo;
        todo := todo - {p};
        peers := peers[p := peers[p].(score := Decayed(peers[p].score, config.decayAmount))];
      }
    }
  }

  // ---------- Decay ----------

  function After(score: int, amount: int, steps: nat): int
    decreases steps
  {
    if steps == 0 then score else After(Decayed(score, amount), amount, steps - 1)
  }

  function Distance(score: int): nat {
    if score >= INITIAL_SCORE then score - INITIAL_SCORE else INITIAL_SCORE - score
  }

  /**
   After `steps` decays a score is closer by that many amounts, never crosses, and is there exactly when they suffice.
   */
  lemma {:induction false} DecayExactly(score: int, amount: int, steps: nat)
    requires amount > 0
    ensures Distance(After(score, amount, steps)) == if steps * amount >= Distance(score) then 0
        else Distance(score) - steps * amount
    ensures score >= INITIAL_SCORE ==> After(score, amount, steps) >= INITIAL_SCORE
    ensures score <= INITIAL_SCORE ==> After(score, amount, steps) <= INITIAL_SCORE
    decreases steps
  {
    if steps > 0 {
      var next := Decayed(score, amount);
      assert steps * amount == (steps - 1) * amount + amount;
      DecayExactly(next, amount, steps - 1);
      assert Distance(next) == if amount >= Distance(score) then 0 else Distance(score) - amount;
    } else {
      assert steps * amount == 0;
    }
  }

  // ---------- Runs ----------

  datatype Event =
    | Connecting(id: PeerId, direction: Direction, worst: Option<PeerId>)
    | Disconnecting(id: PeerId)
    | Scoring(id: PeerId, event: ScoreEvent)
    | Reporting(id: PeerId, best: nat, chainId: nat)
    | Ticking

  function Step(c: Config, s: State, e: Event): State {
    match e
    case Connecting(id, d, worst) => Connect(c, s, id, d, worst).state
    case Disconnecting(id) => s.(peers := s.peers - {id})
    case Scoring(id, event) => Record(s, id, event)
    case Reporting(id, best, chainId) => Status(c, s, id, best, chainId)
    case Ticking => Tick(c, s)
  }

  function Run(c: Config, s: State, es: seq<Event>): State
    decreases |es|
  {
    if es == [] then s else Run(c, Step(c, s, es[0]), es[1..])
  }

  /** Whoever makes room is a connected peer with the lowest score. */
  ghost predicate Possible(c: Config, s: State, e: Event) {
    e.Connecting? && |s.peers| >= c.maxPeers && e.worst.Some? ==> IsWorst(s.peers, e.worst.value)
  }

  ghost predicate PossibleRun(c: Config, s: State, es: seq<Event>)
    decreases |es|
  {
    es == [] || (Possible(c, s, es[0]) && PossibleRun(c, Step(c, s, es[0]), es[1..]))
  }

  ghost predicate WithinLimits(c: Config, peers: PeerMap) {
    && |peers| <= c.maxPeers
    && |InDirection(peers, Inbound)| <= c.maxInbound && |InDirection(peers, Outbound)| <= c.maxOutbound
  }

  ghost predicate ScoresInRange(peers: PeerMap) {
    forall p :: p in peers ==> -MAX_SCORE <= peers[p].score <= MAX_SCORE
  }

  /** Bans have no end, and a banned peer that is still connected is about to be disconnected. */
  ghost predicate BansHold(s: State) {
    forall p :: p in s.banned ==> s.banned[p] == 0 && (p in s.peers ==> s.peers[p].leaving)
  }

  lemma {:induction false} FewerPeers(a: PeerMap, b: PeerMap)
    requires a.Keys <= b.Keys && forall p :: p in a ==> a[p].direction == b[p].direction
    ensures |a| <= |b| && forall d :: |InDirection(a, d)| <= |InDirection(b, d)|
  {
    SubsetSize(a.Keys, b.Keys);
    forall d
      ensures |InDirection(a, d)| <= |InDirection(b, d)|
    {
      SubsetSize(InDirection(a, d), InDirection(b, d));
    }
  }

  /** One more peer adds at most one, and only in its own direction. */
  lemma {:induction false} OneMorePeer(peers: PeerMap, id: PeerId, p: Peer)
    ensures var more := peers[id := p];
      && |more| <= |peers| + 1
      && forall d :: |InDirection(more, d)| <= |InDirection(peers, d)| + if d == p.direction then 1 else 0
  {
    var more := peers[id := p];
    SubsetSize(more.Keys, peers.Keys + {id});
    forall d
      ensures |InDirection(more, d)| <= |InDirection(peers, d)| + if d == p.direction then 1 else 0
    {
      if d == p.direction {
        SubsetSize(InDirection(more, d), InDirection(peers, d) + {id});
      } else {
        SubsetSize(InDirection(more, d), InDirection(peers, d));
      }
    }
  }

  lemma {:induction false} ConnectKeepsLimits(c: Config, s: State, id: PeerId, d: Direction, worst: Option<PeerId>)
    requires WithinLimits(c, s.peers) && Possible(c, s, Connecting(id, d, worst))
    ensures WithinLimits(c, Connect(c, s, id, d, worst).state.peers)
  {
    var full := |s.peers| >= c.maxPeers;
    if full && worst.Some? {
      assert (s.peers - {worst.value}).Keys == s.peers.Keys - {worst.value};
      FewerPeers(s.peers - {worst.value}, s.peers);
      OneMorePeer(s.peers - {worst.value}, id, Peer(INITIAL_SCORE, d, 0, 0, s.tick, s.tick, 0, 0, false));
    } else {
      OneMorePeer(s.peers, id, Peer(INITIAL_SCORE, d, 0, 0, s.tick, s.tick, 0, 0, false));
    }
  }

  lemma {:induction false} SamePeers(c: Config, a: PeerMap, b: PeerMap)
    requires WithinLimits(c, b) && a.Keys <= b.Keys && forall p :: p in a ==> a[p].direction == b[p].direction
    ensures WithinLimits(c, a)
  {
    FewerPeers(a, b);
  }

  lemma {:induction false} StepKeepsLimits(c: Config, s: State, e: Event)
    requires WithinLimits(c, s.peers) && Possible(c, s, e)
    ensures WithinLimits(c, Step(c, s, e).peers)
  {
    if e.Connecting? {
      ConnectKeepsLimits(c, s, e.id, e.direction, e.worst);
    } else {
      SamePeers(c, Step(c, s, e).peers, s.peers);
    }
  }

  lemma {:induction false} StepKeepsScores(c: Config, s: State, e: Event)
    requires ScoresInRange(s.peers) && c.decayAmount >= 0
    ensures ScoresInRange(Step(c, s, e).peers)
  {}

  lemma {:induction false} StepKeepsBans(c: Config, s: State, e: Event)
    requires BansHold(s)
    ensures BansHold(Step(c, s, e)) && s.banned.Keys <= Step(c, s, e).banned.Keys
  {}

  /**
   On every run the connections stay within the three limits and the scores within range, no ban is ever
   lifted, and a banned peer that is still connected is marked for disconnection.
   */
  lemma {:induction false} PeersOnEveryRun(c: Config, s: State, es: seq<Event>)
    requires WithinLimits(c, s.peers) && ScoresInRange(s.peers) && BansHold(s) && c.decayAmount >= 0
    requires PossibleRun(c, s, es)
    ensures var t := Run(c, s, es);
      && WithinLimits(c, t.peers) && ScoresInRange(t.peers) && BansHold(t)
      && forall p :: IsBanned(s, p) ==> IsBanned(t, p)
    decreases |es|
  {
    if es != [] {
      StepKeepsLimits(c, s, es[0]);
      StepKeepsScores(c, s, es[0]);
      StepKeepsBans(c, s, es[0]);
      PeersOnEveryRun(c, Step(c, s, es[0]), es[1..]);
    }
  }

  /** In particular on every run from a new manager. */
  lemma {:induction false} PeersFromNobody(c: Config, es: seq<Event>)
    requires c.decayAmount >= 0 && PossibleRun(c, NOBODY, es)
    ensures var t := Run(c, NOBODY, es); WithinLimits(c, t.peers) && ScoresInRange(t.peers) && BansHold(t)
  {
    NobodyWithinLimits(c);
    PeersOnEveryRun(c, NOBODY, es);
  }

  lemma {:induction false} NobodyWithinLimits(c: Config)
    ensures WithinLimits(c, NOBODY.peers) && ScoresInRange(NOBODY.peers) && BansHold(NOBODY)
  {
    assert InDirection(map[], Inbound) == {} && InDirection(map[], Outbound) == {};
  }

  /**
   A decay step keeps every score in range exactly when the amount does not push any score past the bound: it must not
   be negative.
   */
  lemma {:induction false} DecayInRangeExactly(amount: int)
    ensures (forall score :: -MAX_SCORE <= score <= MAX_SCORE ==>
        -MAX_SCORE <= Decayed(score, amount) <= MAX_SCORE) <==> amount >= 0
  {
    assert Decayed(MAX_SCORE, amount) == if MAX_SCORE - amount > INITIAL_SCORE then MAX_SCORE - amount
        else INITIAL_SCORE;
  }

  /** The newcomer is refused, and yet the connected peers are no longer the same. */
  ghost predicate LostForNothing(c: Config, s: State, id: PeerId, d: Direction, worst: PeerId) {
    var r := Connect(c, s, id, d, Some(worst));
    !r.accepted && r.state.peers != s.peers
  }

  /** Removing a peer changes the count of its own direction only. */
  lemma {:induction false} WithoutPeer(peers: PeerMap, p: PeerId, d: Direction)
    requires p in peers
    ensures |InDirection(peers - {p}, d)| == |InDirection(peers, d)| - if peers[p].direction == d then 1 else 0
  {
    if peers[p].direction == d {
      assert InDirection(peers - {p}, d) == InDirection(peers, d) - {p};
    } else {
      assert InDirection(peers - {p}, d) == InDirection(peers, d);
    }
  }

  /**
   A refused newcomer costs a connected peer its place exactly when it is not banned, the table is full,
   its direction is at the limit, and the peer that makes room does not free a place in that direction.
   */
  lemma {:induction false} RefusedAfterEvictionExactly(c: Config, s: State, id: PeerId, d: Direction, worst: PeerId)
    requires WithinLimits(c, s.peers) && IsWorst(s.peers, worst)
    ensures LostForNothing(c, s, id, d, worst) <==>
      && !IsBanned(s, id) && |s.peers| >= c.maxPeers && |InDirection(s.peers, d)| >= Limit(c, d)
      && (s.peers[worst].direction != d || Limit(c, d) == 0)
    ensures LostForNothing(c, s, id, d, worst) ==> Connect(c, s, id, d, Some(worst)).state.peers == s.peers - {worst}
  {
    WithoutPeer(s.peers, worst, d);
    assert worst !in s.peers - {worst};
    assert |InDirection(s.peers, d)| <= Limit(c, d);
  }

  /** Room for two, at most one of them inbound. */
  const CROWDED: Config := Config(2, 1, 2, 60, 5, 1)

  function Newcomer(d: Direction): Peer { Peer(INITIAL_SCORE, d, 0, 0, 0, 0, 0, 0, false) }

  lemma {:induction false} TwoConnect()
    ensures var s := Step(CROWDED, Step(CROWDED, NOBODY, Connecting(1, Inbound, None)), Connecting(2, Outbound, None));
      s == NOBODY.(peers := map[1 := Newcomer(Inbound), 2 := Newcomer(Outbound)])
  {
    assert InDirection(map[], Inbound) == {};
    var s1 := Step(CROWDED, NOBODY, Connecting(1, Inbound, None));
    assert s1.peers == map[1 := Newcomer(Inbound)];
    assert InDirection(s1.peers, Outbound) == {};
  }

  lemma {:induction false} OneTimesOut(s: State)
    requires s == NOBODY.(peers := map[1 := Newcomer(Inbound), 2 := Newcomer(Outbound)])
    ensures var t := Step(CROWDED, s, Scoring(2, Timeout));
      && t.peers.Keys == {1, 2} && |t.peers| == 2 && InDirection(t.peers, Inbound) == {1}
      && InDirection(t.peers, Outbound) == {2} && IsWorst(t.peers, 2) && t.banned == map[]
  {
    var t := Step(CROWDED, s, Scoring(2, Timeout));
    assert t.peers[2].score == 90 && t.peers[1].score == 100;
    assert |t.peers| == |t.peers.Keys|;
  }

  /** A run that ends so: an inbound and an outbound peer are connected, and a second inbound peer comes. */
  lemma {:induction false} RefusedAfterEvictionReached()
    ensures var es := [Connecting(1, Inbound, None), Connecting(2, Outbound, None), Scoring(2, Timeout)];
      var s := Run(CROWDED, NOBODY, es);
      && PossibleRun(CROWDED, NOBODY, es) && IsWorst(s.peers, 2)
      && LostForNothing(CROWDED, s, 3, Inbound, 2) && Connect(CROWDED, s, 3, Inbound, Some(2)).state.peers.Keys == {1}
  {
    RunThree(CROWDED, NOBODY, Connecting(1, Inbound, None), Connecting(2, Outbound, None), Scoring(2, Timeout));
    TwoConnect();
    var s2 := NOBODY.(peers := map[1 := Newcomer(Inbound), 2 := Newcomer(Outbound)]);
    OneTimesOut(s2);
    var s3 := Step(CROWDED, s2, Scoring(2, Timeout));
    RefusedAfterEvictionExactly(CROWDED, s3, 3, Inbound, 2);
    assert (s3.peers - {2}).Keys == {1};
  }

  lemma {:induction false} RunThree(c: Config, s: State, e1: Event, e2: Event, e3: Event)
    ensures Run(c, s, [e1, e2, e3]) == Step(c, Step(c, Step(c, s, e1), e2), e3)
    ensures PossibleRun(c, s, [e1, e2, e3]) <==>
      Possible(c, s, e1) && Possible(c, Step(c, s, e1), e2) && Possible(c, Step(c, Step(c, s, e1), e2), e3)
  {
    assert [e1, e2, e3][1..] == [e2, e3];
    assert [e2, e3][1..] == [e3];
    assert [e3][1..] == [];
    var s1 := Step(c, s, e1);
    var s2 := Step(c, s1, e2);
    assert Run(c, s2, [e3]) == Step(c, s2, e3);
    assert Run(c, s1, [e2, e3]) == Run(c, s2, [e3]);
    assert PossibleRun(c, s2, [e3]) <==> Possible(c, s2, e3);
    assert PossibleRun(c, s1, [e2, e3]) <==> Possible(c, s1, e2) && PossibleRun(c, s2, [e3]);
  }
}

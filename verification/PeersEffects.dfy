/**
 What events, ticks and connections do to a peer, with the numbers the node uses: the points of each
 event, when a peer is marked and banned, when scores decay and when a newcomer is taken.
 */
module PeersEffects {
  import opened Wrappers
  import opened Arithmetic
  import opened OrderedKeys
  import opened Peers

  // ---------- One event ----------

  function Within(score: int): int { if score > 500 then 500 else if score < -500 then -500 else score }

  /** The score moves by `points`, within -500 and 500; the counters tell good from bad. */
  ghost predicate Moves(s: State, t: State, id: PeerId, points: int)
    requires id in s.peers
  {
    && id in t.peers
    && t.peers[id].score == Within(s.peers[id].score + points)
    && t.peers[id].good == s.peers[id].good + (if points > 0 then 1 else 0)
    && t.peers[id].bad == s.peers[id].bad + (if points < 0 then 1 else 0)
    && t.peers[id].lastActivity == s.tick
  }

  /** The bad events and what each takes away. */
  predicate Costs(e: ScoreEvent, points: nat) {
    match e
    case InvalidBlock => points == 50
    case InvalidHeaders => points == 30
    case Timeout => points == 10
    case DuplicateData => points == 5
    case UnsolicitedData => points == 3
    case WrongChainId => points == 100
    case _ => false
  }

  /** What the good events are worth. */
  lemma GoodMoves(c: Config, s: State, id: PeerId)
    requires id in s.peers
    ensures Moves(s, Step(c, s, Scoring(id, ValidBlock)), id, 10)
    ensures Moves(s, Step(c, s, Scoring(id, ValidHeaders)), id, 5)
    ensures Moves(s, Step(c, s, Scoring(id, ValidBodies)), id, 5)
    ensures Moves(s, Step(c, s, Scoring(id, PongReceived)), id, 1)
    ensures Moves(s, Step(c, s, Scoring(id, Decay)), id, 0)
  {}

  /** What the bad events cost. */
  lemma BadMoves(c: Config, s: State, id: PeerId, e: ScoreEvent, points: nat)
    requires id in s.peers && Costs(e, points)
    ensures Moves(s, Step(c, s, Scoring(id, e)), id, 0 - points)
  {}

  /** After an event a peer is marked at -50 or less and banned for good at -200 or less; nobody else is touched. */
  lemma EventMarks(c: Config, s: State, id: PeerId, e: ScoreEvent)
    requires id in s.peers
    ensures var t := Step(c, s, Scoring(id, e)); var score := t.peers[id].score;
      && t.peers.Keys == s.peers.Keys && (forall p :: p in s.peers && p != id ==> t.peers[p] == s.peers[p])
      && (t.peers[id].leaving <==> s.peers[id].leaving || score <= -50)
      && (score <= -200 ==> t.banned == s.banned[id := 0])
      && (score > -200 ==> t.banned == s.banned)
  {
    assert Step(c, s, Scoring(id, e)).peers.Keys == s.peers.Keys;
  }

  function Repeated(id: PeerId, e: ScoreEvent, k: nat): seq<Event> {
    if k == 0 then [] else [Scoring(id, e)] + Repeated(id, e, k - 1)
  }

  ghost predicate AfterBad(s: State, t: State, id: PeerId, total: nat)
    requires id in s.peers
  {
    && id in t.peers
    && t.peers[id].score == (if s.peers[id].score - total < -500 then -500 else s.peers[id].score - total)
    && (t.peers[id].leaving <==> s.peers[id].leaving || (total > 0 && s.peers[id].score - total <= -50))
    && (id in t.banned <==> id in s.banned || (total > 0 && s.peers[id].score - total <= -200))
  }

  lemma AfterOneBad(c: Config, s: State, id: PeerId, e: ScoreEvent, points: nat)
    requires id in s.peers && -500 <= s.peers[id].score <= 500 && Costs(e, points)
    ensures AfterBad(s, Step(c, s, Scoring(id, e)), id, points)
  {}

  lemma BadAddsUp(s: State, t: State, u: State, id: PeerId, a: nat, b: nat)
    requires id in s.peers && AfterBad(s, t, id, a) && a > 0 && AfterBad(t, u, id, b)
    requires -500 <= s.peers[id].score <= 500
    ensures AfterBad(s, u, id, a + b)
  {}

  /**
   A peer that repeats one kind of bad event: after `k` of them it has lost `k` times its points, down to
   -500, is marked exactly when that brings it to -50, and banned exactly when it brings it to -200.
   */
  lemma {:induction false} MisbehavingExactly(c: Config, s: State, id: PeerId, e: ScoreEvent, points: nat, k: nat)
    requires id in s.peers && -500 <= s.peers[id].score <= 500 && Costs(e, points)
    ensures AfterBad(s, Run(c, s, Repeated(id, e, k)), id, Product(k, points))
    decreases k
  {
    if k == 0 {
      assert k * points == 0;
    } else {
      var t := Step(c, s, Scoring(id, e));
      var es := Repeated(id, e, k);
      assert es[0] == Scoring(id, e) && es[1..] == Repeated(id, e, k - 1);
      AfterOneBad(c, s, id, e, points);
      MisbehavingExactly(c, t, id, e, points, k - 1);
      BadAddsUp(s, t, Run(c, t, es[1..]), id, points, Product(k - 1, points));
      assert k * points == points + (k - 1) * points;
    }
  }

  /** A report is stored; one with a foreign chain id costs 100 points, one with no chain id costs none. */
  lemma ReportExactly(c: Config, s: State, id: PeerId, best: nat, chainId: nat)
    requires id in s.peers
    ensures var t := Step(c, s, Reporting(id, best, chainId));
      && id in t.peers && t.peers[id].bestBlock == best && t.peers[id].chainId == chainId
      && (if chainId == 0 || chainId == c.chainId
          then t.peers[id].score == s.peers[id].score && t.peers[id].bad == s.peers[id].bad && t.banned == s.banned
          else Moves(s, t, id, -100))
  {}

  // ---------- Ticks ----------

  function Ticks(c: Config, s: State, k: nat): State
    decreases k
  {
    if k == 0 then s else Ticks(c, Step(c, s, Ticking), k - 1)
  }

  lemma TickDecays(c: Config, s: State, id: PeerId)
    requires s.lastDecay <= s.tick < s.lastDecay + c.decayInterval && id in s.peers
    ensures var t := Step(c, s, Ticking);
      && t.tick == s.tick + 1 && t.peers.Keys == s.peers.Keys
      && (if s.tick + 1 - s.lastDecay < c.decayInterval then t.lastDecay == s.lastDecay && t.peers[id] == s.peers[id]
          else t.lastDecay == t.tick
               && t.peers[id] == s.peers[id].(score := After(s.peers[id].score, c.decayAmount, 1)))
  {
    assert After(s.peers[id].score, c.decayAmount, 1) == Decayed(s.peers[id].score, c.decayAmount);
    assert AllDecayed(s.peers, c.decayAmount).Keys == s.peers.Keys;
  }

  lemma {:induction false} AfterMore(score: int, amount: int, steps: nat)
    ensures After(After(score, amount, 1), amount, steps) == After(score, amount, 1 + steps)
  {
    assert After(score, amount, 1) == Decayed(score, amount);
  }

  /**
   After `k` ticks the scores have decayed once for every full interval since the last decay, and nothing
   else about a peer changed.
   */
  lemma {:induction false} DecaysExactly(c: Config, s: State, k: nat, id: PeerId)
    requires s.lastDecay <= s.tick < s.lastDecay + c.decayInterval && id in s.peers
    ensures var t := Ticks(c, s, k); var steps := Intervals(s.tick - s.lastDecay, k, c.decayInterval);
      && t.tick == s.tick + k && t.peers.Keys == s.peers.Keys
      && t.peers[id] == s.peers[id].(score := After(s.peers[id].score, c.decayAmount, steps))
    decreases k
  {
    var n := c.decayInterval;
    var age := s.tick - s.lastDecay;
    IntervalsStep(age, if k > 0 then k else 1, n);
    if k > 0 {
      TickDecays(c, s, id);
      DecaysExactly(c, Step(c, s, Ticking), k - 1, id);
      AfterMore(s.peers[id].score, c.decayAmount, Intervals(0, k - 1, n));
    }
  }

  /** A ban without end stays; one with an end holds for exactly the ticks before it. */
  lemma {:induction false} BanEndsExactly(c: Config, s: State, k: nat, id: PeerId)
    requires IsBanned(s, id)
    ensures IsBanned(Ticks(c, s, k), id) <==> s.banned[id] == 0 || s.tick + k < s.banned[id]
    decreases k
  {
    if k > 0 {
      var t := Step(c, s, Ticking);
      if IsBanned(t, id) {
        BanEndsExactly(c, t, k - 1, id);
      } else {
        NotBannedByTicks(c, t, k - 1, id);
      }
    }
  }

  lemma {:induction false} NotBannedByTicks(c: Config, s: State, k: nat, id: PeerId)
    requires !IsBanned(s, id)
    ensures !IsBanned(Ticks(c, s, k), id)
    decreases k
  {
    if k > 0 {
      NotBannedByTicks(c, Step(c, s, Ticking), k - 1, id);
    }
  }

  // ---------- Connections ----------

  /**
   A newcomer is taken exactly when it is not banned and its direction has a place, or gets one from the
   peer that makes room in a full table; it starts with 100 points.
   */
  lemma ConnectedExactly(c: Config, s: State, id: PeerId, d: Direction, worst: Option<PeerId>)
    requires Possible(c, s, Connecting(id, d, worst))
    ensures var r := Connect(c, s, id, d, worst);
      var full := |s.peers| >= c.maxPeers;
      var taken := |InDirection(s.peers, d)|;
      && (r.accepted <==>
            && !IsBanned(s, id) && (full ==> worst.Some?)
            && taken - (if full && worst.Some? && s.peers[worst.value].direction == d then 1 else 0) < Limit(c, d))
      && (r.accepted ==>
            && id in r.state.peers && r.state.peers[id].score == 100 && r.state.peers[id].direction == d
            && r.state.peers[id].connected == s.tick && !r.state.peers[id].leaving
            && (forall p :: p in s.peers && p != id && !(full && worst == Some(p)) ==>
                  p in r.state.peers && r.state.peers[p] == s.peers[p]))
      && (!full && !r.accepted ==> r.state == s)
  {
    if |s.peers| >= c.maxPeers && worst.Some? {
      WithoutPeer(s.peers, worst.value, d);
    }
  }
}

/** Consent, single execution and registration of trades, over every run of the trade manager. */
module TradingRuns {
  import opened Wrappers
  import opened OrderedKeys
  import opened Trading

  datatype Event =
    | Proposing(initiator: Player, acceptor: Player, tick: nat)
    | Accepting(id: TradeId, player: Player)
    | Adding(id: TradeId, player: Player, item: ItemId, quantity: nat)
    | Confirming(id: TradeId, player: Player)
    | Cancelling(id: TradeId, player: Player)
    | Expiring(tick: nat)

  function Step(s: State, e: Event): State {
    match e
    case Proposing(i, a, tick) => Propose(s, i, a, tick).0
    case Accepting(id, p) => Accept(s, id, p).0
    case Adding(id, p, item, quantity) => AddItem(s, id, p, item, quantity).0
    case Confirming(id, p) => Confirm(s, id, p).0
    case Cancelling(id, p) => Cancel(s, id, p).0
    case Expiring(tick) => Expire(s, tick)
  }

  function Run(s: State, es: seq<Event>): State
    decreases |es|
  {
    if es == [] then s else Run(Step(s, es[0]), es[1..])
  }

  // ---------- What each side saw when it last confirmed ----------

  /** The two offers, as they stood when a participant confirmed. */
  datatype Deal = Deal(byInitiator: seq<Stack>, byAcceptor: seq<Stack>)

  function DealOf(t: Session): Deal {
    Deal(t.initiatorOffer.items, t.acceptorOffer.items)
  }

  /** For each trade, the deal each side saw at its last accepted confirmation. */
  datatype Seen = Seen(initiators: map<TradeId, Deal>, acceptors: map<TradeId, Deal>)

  function Observe(s: State, seen: Seen, e: Event): Seen {
    if e.Confirming? && e.id in s.trades && s.trades[e.id].Open() && s.trades[e.id].Has(e.player) then
      var t := s.trades[e.id];
      if e.player == t.initiator
      then seen.(initiators := seen.initiators[e.id := DealOf(t)])
      else seen.(acceptors := seen.acceptors[e.id := DealOf(t)])
    else
      seen
  }

  function SeenAfter(s: State, seen: Seen, es: seq<Event>): Seen
    decreases |es|
  {
    if es == [] then seen else SeenAfter(Step(s, es[0]), Observe(s, seen, es[0]), es[1..])
  }

  /** The confirmation flags of a trade, as its phase says. */
  ghost predicate FlagsMatch(t: Session) {
    match t.phase
    case Proposed => !t.initiatorOffer.confirmed && !t.acceptorOffer.confirmed
    case Negotiating => !t.initiatorOffer.confirmed && !t.acceptorOffer.confirmed
    case InitiatorConfirmed => t.initiatorOffer.confirmed && !t.acceptorOffer.confirmed
    case AcceptorConfirmed => !t.initiatorOffer.confirmed && t.acceptorOffer.confirmed
    case Completed => t.initiatorOffer.confirmed && t.acceptorOffer.confirmed
    case _ => true
  }

  /** A side that counts as confirmed saw, when it last confirmed, the offers as they are now. */
  ghost predicate Informed(t: Session, seen: Seen) {
    && (t.initiatorOffer.confirmed ==> t.id in seen.initiators && seen.initiators[t.id] == DealOf(t))
    && (t.acceptorOffer.confirmed ==> t.id in seen.acceptors && seen.acceptors[t.id] == DealOf(t))
  }

  ghost predicate SelfTradeOpen(t: Session) {
    t.initiator == t.acceptor ==> !t.acceptorOffer.confirmed
  }

  /** The player opened this trade, or joined it after it was proposed. */
  predicate Joined(t: Session, p: Player) {
    p == t.initiator || (p == t.acceptor && !t.phase.Proposed?)
  }

  /** An active entry names a live trade that the player opened or joined. */
  ghost predicate ActiveEntries(s: State) {
    forall p :: p in s.active ==>
      s.active[p] in s.trades && s.trades[s.active[p]].Live() && Joined(s.trades[s.active[p]], p)
  }

  ghost predicate Sound(s: State, seen: Seen) {
    && ActiveEntries(s)
    && forall id :: id in s.trades ==>
         var t := s.trades[id];
         id < s.nextId && t.id == id && FlagsMatch(t) && Informed(t, seen) && SelfTradeOpen(t)
  }

  lemma ConfirmKeepsSound(s: State, seen: Seen, id: TradeId, p: Player)
    requires Sound(s, seen)
    ensures Sound(Confirm(s, id, p).0, Observe(s, seen, Confirming(id, p)))
  {
    ConfirmKeepsEntries(s, seen, id, p);
    var t := Confirm(s, id, p).0;
    forall other | other in t.trades && other != id
      ensures t.trades[other] == s.trades[other]
    {}
  }

  lemma ConfirmKeepsEntries(s: State, seen: Seen, id: TradeId, p: Player)
    requires Sound(s, seen)
    ensures ActiveEntries(Confirm(s, id, p).0)
  {
  }

  lemma AddKeepsSound(s: State, seen: Seen, id: TradeId, p: Player, item: ItemId, quantity: nat)
    requires Sound(s, seen)
    ensures Sound(AddItem(s, id, p, item, quantity).0, seen)
  {
  }

  lemma StepKeepsSound(s: State, seen: Seen, e: Event)
    requires Sound(s, seen)
    ensures Sound(Step(s, e), Observe(s, seen, e))
  {
    match e
    case Expiring(tick) => ExpireKeepsSound(s, seen, tick);
    case Confirming(id, p) => ConfirmKeepsSound(s, seen, id, p);
    case Adding(id, p, item, quantity) => AddKeepsSound(s, seen, id, p, item, quantity);
    case _ =>
  }

  lemma ExpireKeepsSound(s: State, seen: Seen, tick: nat)
    requires Sound(s, seen)
    ensures Sound(Expire(s, tick), seen)
  {
    var t := Expire(s, tick);
    forall p | p in t.active
      ensures t.active[p] in t.trades && t.trades[t.active[p]].Live() && Joined(t.trades[t.active[p]], p)
    {
      var id := s.active[p];
      assert id in s.trades && Joined(s.trades[id], p);
      assert p !in Leavers(s, tick);
    }
  }

  /** Flags, consent and the active entries hold on every run from an empty manager. */
  lemma {:induction false} RunKeepsSound(s: State, seen: Seen, es: seq<Event>)
    requires Sound(s, seen)
    ensures Sound(Run(s, es), SeenAfter(s, seen, es))
    decreases |es|
  {
    if es != [] {
      StepKeepsSound(s, seen, es[0]);
      RunKeepsSound(Step(s, es[0]), Observe(s, seen, es[0]), es[1..]);
    }
  }

  const NOTHING_SEEN: Seen := Seen(map[], map[])

  /**
   Consent: when a confirmation executes a trade, each party receives exactly the other's offer of one
   deal, and that deal is what both parties saw at their own last confirmation. The two are different players.
   */
  lemma {:induction false} ExecutedWithConsent(timeout: nat, es: seq<Event>, id: TradeId, player: Player)
    requires Confirm(Run(Init(timeout), es), id, player).1.Executed?
    ensures var s := Run(Init(timeout), es);
            var r := Confirm(s, id, player).1;
            var seen := SeenAfter(Init(timeout), NOTHING_SEEN, es + [Confirming(id, player)]);
            && r.id == id && id in seen.initiators && id in seen.acceptors
            && seen.initiators[id] == seen.acceptors[id] == Deal(r.acceptorReceived, r.initiatorReceived)
            && s.trades[id].initiator != s.trades[id].acceptor
  {
    var s := Run(Init(timeout), es);
    var seen := SeenAfter(Init(timeout), NOTHING_SEEN, es);
    RunKeepsSound(Init(timeout), NOTHING_SEEN, es);
    SeenLast(Init(timeout), NOTHING_SEEN, es, Confirming(id, player));
    StepKeepsSound(s, seen, Confirming(id, player));
  }

  lemma {:induction false} SeenLast(s: State, seen: Seen, es: seq<Event>, e: Event)
    ensures SeenAfter(s, seen, es + [e]) == Observe(Run(s, es), SeenAfter(s, seen, es), e)
    decreases |es|
  {
    if es == [] {
      assert (es + [e])[1..] == [];
    } else {
      assert (es + [e])[1..] == es[1..] + [e];
      SeenLast(Step(s, es[0]), Observe(s, seen, es[0]), es[1..], e);
    }
  }

  // ---------- At most once ----------

  /** How often the run reports the trade as executed. */
  function Executions(s: State, es: seq<Event>, id: TradeId): nat
    decreases |es|
  {
    if es == [] then 0 else
      var now := if es[0].Confirming? && es[0].id == id && Confirm(s, id, es[0].player).1.Executed? then 1 else 0;
      now + Executions(Step(s, es[0]), es[1..], id)
  }

  /** A trade that is over stays over, keeps its deal, and is not executed again. */
  lemma {:induction false} OverIsOver(s: State, es: seq<Event>, id: TradeId)
    requires id in s.trades && !s.trades[id].Live() && forall k :: k in s.trades ==> k < s.nextId
    ensures var t := Run(s, es);
            id in t.trades && !t.trades[id].Live() && DealOf(t.trades[id]) == DealOf(s.trades[id])
    ensures Executions(s, es, id) == 0
    decreases |es|
  {
    if es != [] {
      var t := Step(s, es[0]);
      assert id in t.trades && !t.trades[id].Live() && DealOf(t.trades[id]) == DealOf(s.trades[id]);
      assert forall k :: k in t.trades ==> k < t.nextId;
      OverIsOver(t, es[1..], id);
    }
  }

  lemma {:induction false} ExecutedAtMostOnce(s: State, seen: Seen, es: seq<Event>, id: TradeId)
    requires Sound(s, seen)
    ensures Executions(s, es, id) <= 1
    decreases |es|
  {
    if es != [] {
      var t := Step(s, es[0]);
      StepKeepsSound(s, seen, es[0]);
      if es[0].Confirming? && es[0].id == id && Confirm(s, id, es[0].player).1.Executed? {
        OverIsOver(t, es[1..], id);
      } else {
        ExecutedAtMostOnce(t, Observe(s, seen, es[0]), es[1..], id);
      }
    }
  }

  // ---------- One trade at a time ----------

  /** Every player who opened or joined a live trade has that trade as its entry. */
  ghost predicate Registered(s: State) {
    forall id, p :: id in s.trades && s.trades[id].Live() && Joined(s.trades[id], p) ==>
      p in s.active && s.active[p] == id
  }

  /** So nobody has opened or joined two live trades. */
  lemma OneTradeAtATime(s: State, p: Player, i: TradeId, j: TradeId)
    requires Registered(s) && i in s.trades && j in s.trades && s.trades[i].Live() && s.trades[j].Live()
    requires Joined(s.trades[i], p) && Joined(s.trades[j], p)
    ensures i == j
  {
    assert s.active[p] == i;
  }

  /** The entries that an event overwrites or drops belong to trades that the event is about. */
  ghost predicate Careful(s: State, e: Event) {
    match e
    case Accepting(id, p) => Accept(s, id, p).1.Accepted? && p in s.active ==> s.active[p] == id
    case Cancelling(id, p) => Cancel(s, id, p).1.TradeCancelled? ==> OwnEntries(s, id)
    case Expiring(tick) => forall p :: p in s.active && p in Leavers(s, tick) ==>
                             s.active[p] in s.trades && TimedOut(s.trades[s.active[p]], tick)
    case _ => true
  }

  ghost predicate OwnEntries(s: State, id: TradeId)
    requires id in s.trades
  {
    forall p :: s.trades[id].Has(p) && p in s.active ==> s.active[p] == id
  }

  lemma AcceptRegistered(s: State, seen: Seen, id: TradeId, p: Player)
    requires Sound(s, seen) && Registered(s) && Accept(s, id, p).1.Accepted?
    ensures Registered(Accept(s, id, p).0) <==> (p in s.active ==> s.active[p] == id)
  {
    var t := Accept(s, id, p).0;
    if p in s.active && s.active[p] != id {
      assert t.trades[s.active[p]].Live() && Joined(t.trades[s.active[p]], p) && t.active[p] == id;
      assert !Registered(t);
    } else {
      forall i, q | i in t.trades && t.trades[i].Live() && Joined(t.trades[i], q)
        ensures q in t.active && t.active[q] == i
      {
        assert i != id ==> Joined(s.trades[i], q);
        assert i == id ==> q == p || Joined(s.trades[i], q);
      }
    }
  }

  lemma CancelRegistered(s: State, seen: Seen, id: TradeId, p: Player)
    requires Sound(s, seen) && Registered(s) && Cancel(s, id, p).1.TradeCancelled?
    ensures Registered(Cancel(s, id, p).0) <==> OwnEntries(s, id)
  {
    var t := Cancel(s, id, p).0;
    if OwnEntries(s, id) {
      forall i, q | i in t.trades && t.trades[i].Live() && Joined(t.trades[i], q)
        ensures q in t.active && t.active[q] == i
      {
        assert Joined(s.trades[i], q);
        assert q in s.active && s.active[q] == i;
        assert !s.trades[id].Has(q);
      }
    } else {
      var q :| s.trades[id].Has(q) && q in s.active && s.active[q] != id;
      CancelDropsOther(s, seen, id, p, q, s.active[q]);
    }
  }

  /** Cancelling drops the entry of a player who takes part, even if it names another live trade. */
  lemma CancelDropsOther(s: State, seen: Seen, id: TradeId, p: Player, q: Player, i: TradeId)
    requires Sound(s, seen) && Cancel(s, id, p).1.TradeCancelled?
    requires s.trades[id].Has(q) && q in s.active && i == s.active[q] != id
    ensures !Registered(Cancel(s, id, p).0)
  {
    var t := Cancel(s, id, p).0;
    assert i in t.trades && t.trades[i].Live() && Joined(t.trades[i], q) && q !in t.active;
  }

  lemma CarefulExpireRegistered(s: State, tick: nat)
    requires Registered(s) && Careful(s, Expiring(tick))
    ensures Registered(Expire(s, tick))
  {
    var t := Expire(s, tick);
    forall i, q | i in t.trades && t.trades[i].Live() && Joined(t.trades[i], q)
      ensures q in t.active && t.active[q] == i
    {
      assert Joined(s.trades[i], q);
      assert q in s.active && s.active[q] == i;
      assert q !in Leavers(s, tick);
    }
  }

  lemma ExpireRegistered(s: State, seen: Seen, tick: nat)
    requires Sound(s, seen) && Registered(s)
    ensures Registered(Expire(s, tick)) <==> Careful(s, Expiring(tick))
  {
    if Careful(s, Expiring(tick)) {
      CarefulExpireRegistered(s, tick);
    } else {
      var q :| q in s.active && q in Leavers(s, tick) && !TimedOut(s.trades[s.active[q]], tick);
      LeaverUnregistered(s, seen, tick, q, s.active[q]);
    }
  }

  /** Expiry drops the entry of a player who takes part in an expired trade, even if it names another. */
  lemma LeaverUnregistered(s: State, seen: Seen, tick: nat, q: Player, i: TradeId)
    requires Sound(s, seen) && q in s.active && i == s.active[q] && q in Leavers(s, tick)
        && !TimedOut(s.trades[i], tick)
    ensures !Registered(Expire(s, tick))
  {
    var t := Expire(s, tick);
    assert i in s.trades && s.trades[i].Live() && Joined(s.trades[i], q);
    assert t.trades[i] == s.trades[i] && q !in t.active;
  }

  lemma ProposeRegistered(s: State, seen: Seen, initiator: Player, acceptor: Player, tick: nat)
    requires Sound(s, seen) && Registered(s)
    ensures Registered(Propose(s, initiator, acceptor, tick).0)
  {
    var t := Propose(s, initiator, acceptor, tick).0;
    forall i, q | i in t.trades && t.trades[i].Live() && Joined(t.trades[i], q)
      ensures q in t.active && t.active[q] == i
    {
      if i in s.trades { assert Joined(s.trades[i], q); }
    }
  }

  lemma AddRegistered(s: State, id: TradeId, p: Player, item: ItemId, quantity: nat)
    requires Registered(s)
    ensures Registered(AddItem(s, id, p, item, quantity).0)
  {
    var t := AddItem(s, id, p, item, quantity).0;
    forall i, q | i in t.trades && t.trades[i].Live() && Joined(t.trades[i], q)
      ensures q in t.active && t.active[q] == i
    {
      assert s.trades[i].Live() && Joined(s.trades[i], q);
    }
  }

  lemma ConfirmRegistered(s: State, id: TradeId, p: Player)
    requires Registered(s)
    ensures Registered(Confirm(s, id, p).0)
  {
    var t := Confirm(s, id, p).0;
    forall i, q | i in t.trades && t.trades[i].Live() && Joined(t.trades[i], q)
      ensures q in t.active && t.active[q] == i
    {
      assert s.trades[i].Live() && Joined(s.trades[i], q);
      assert q in s.active && s.active[q] == i;
      if Confirm(s, id, p).1.Executed? {
        assert Joined(s.trades[id], s.trades[id].initiator) && Joined(s.trades[id], s.trades[id].acceptor);
      }
    }
  }

  /**
   `accept`, `cancel` and expiry do not look at the entries they overwrite or drop. An event keeps every
   live trade registered exactly when these entries belong to the trades the event is about.
   */
  lemma RegisteredExactly(s: State, seen: Seen, e: Event)
    requires Sound(s, seen) && Registered(s)
    ensures Registered(Step(s, e)) <==> Careful(s, e)
  {
    match e
    case Accepting(id, p) =>
      if Accept(s, id, p).1.Accepted? { AcceptRegistered(s, seen, id, p); }
    case Cancelling(id, p) =>
      if Cancel(s, id, p).1.TradeCancelled? { CancelRegistered(s, seen, id, p); }
    case Expiring(tick) => ExpireRegistered(s, seen, tick);
    case Proposing(i, a, tick) => ProposeRegistered(s, seen, i, a, tick);
    case Adding(id, p, item, quantity) => AddRegistered(s, id, p, item, quantity);
    case Confirming(id, p) => ConfirmRegistered(s, id, p);
  }

  ghost predicate CarefulRun(s: State, es: seq<Event>)
    decreases |es|
  {
    es == [] || (Careful(s, es[0]) && CarefulRun(Step(s, es[0]), es[1..]))
  }

  ghost predicate AlwaysRegistered(s: State, es: seq<Event>)
    decreases |es|
  {
    es == [] || (Registered(Step(s, es[0])) && AlwaysRegistered(Step(s, es[0]), es[1..]))
  }

  lemma {:induction false} RegisteredRunExactly(s: State, seen: Seen, es: seq<Event>)
    requires Sound(s, seen) && Registered(s)
    ensures AlwaysRegistered(s, es) <==> CarefulRun(s, es)
    decreases |es|
  {
    if es != [] {
      RegisteredExactly(s, seen, es[0]);
      StepKeepsSound(s, seen, es[0]);
      if Careful(s, es[0]) {
        RegisteredRunExactly(Step(s, es[0]), Observe(s, seen, es[0]), es[1..]);
      }
    }
  }

  /** Accepting a second proposal while trading: both trades are live and joined, only the second is registered. */
  lemma AcceptTwice()
    ensures var es := [Proposing("a", "p", 0), Proposing("b", "p", 0), Accepting(1, "p"), Accepting(2, "p")];
            var s := Run(Init(600), es);
            s.trades.Keys == {1, 2} && s.trades[1].phase == Negotiating && s.trades[2].phase == Negotiating
                && s.active["p"] == 2
  {
    var e1, e2, e3, e4 := Proposing("a", "p", 0), Proposing("b", "p", 0), Accepting(1, "p"), Accepting(2, "p");
    var s1 := Step(Init(600), e1);
    var s2 := Step(s1, e2);
    var s3 := Step(s2, e3);
    var s4 := Step(s3, e4);
    assert s2.trades.Keys == {1, 2};
    assert s4.trades.Keys == {1, 2} && s4.active["p"] == 2;
    assert s4.trades[1].phase == Negotiating && s4.trades[2].phase == Negotiating;
    assert [e1, e2, e3, e4][1..] == [e2, e3, e4];
    assert [e2, e3, e4][1..] == [e3, e4];
    assert [e3, e4][1..] == [e4] && [e4][1..] == [];
    assert Run(s3, [e4]) == s4;
    assert Run(s1, [e2, e3, e4]) == Run(s3, [e4]);
  }
}

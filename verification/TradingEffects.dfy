/**
 When trades expire, told with the ticks of the events themselves, and what each event does to the
 offers and to the players' entries.
 */
module TradingEffects {
  import opened Wrappers
  import opened Trading
  import opened TradingRuns

  // ---------- Expiry over whole runs ----------

  /** `t` is the trade that `a` proposed to `b` at `tick`, whatever has become of it. */
  predicate OpenedBy(t: Session, a: Player, b: Player, tick: nat, timeout: nat) {
    t.initiator == a && t.acceptor == b && t.createdTick == tick && t.timeoutTicks == timeout
  }

  /** No later than the deadline. */
  predicate InTime(e: Event, deadline: nat) { e.Expiring? ==> e.tick <= deadline }

  lemma {:induction false} TimeoutKept(s: State, es: seq<Event>)
    requires forall id :: id in s.trades ==> id < s.nextId
    ensures Run(s, es).timeout == s.timeout
    ensures forall id :: id in Run(s, es).trades ==> id < Run(s, es).nextId
    decreases |es|
  {
    if es != [] {
      var t := Step(s, es[0]);
      assert forall id :: id in t.trades ==> id < t.nextId;
      TimeoutKept(t, es[1..]);
    }
  }

  lemma OpenedStep(s: State, e: Event, id: TradeId, a: Player, b: Player, tick: nat, timeout: nat)
    requires id in s.trades && id < s.nextId && OpenedBy(s.trades[id], a, b, tick, timeout)
    ensures var t := Step(s, e);
      && id in t.trades && id < t.nextId && OpenedBy(t.trades[id], a, b, tick, timeout)
      && (t.trades[id].phase.Expired? && !s.trades[id].phase.Expired? ==> e.Expiring? && e.tick > tick + timeout)
  {}

  lemma {:induction false} StaysOpened(s: State, es: seq<Event>, id: TradeId, a: Player, b: Player, tick: nat,
                                       timeout: nat)
    requires id in s.trades && id < s.nextId && OpenedBy(s.trades[id], a, b, tick, timeout)
    ensures var t := Run(s, es);
      && id in t.trades && OpenedBy(t.trades[id], a, b, tick, timeout)
      && (!s.trades[id].phase.Expired? && (forall i :: 0 <= i < |es| ==> InTime(es[i], tick + timeout)) ==>
            !t.trades[id].phase.Expired?)
    decreases |es|
  {
    if es != [] {
      var t := Step(s, es[0]);
      OpenedStep(s, es[0], id, a, b, tick, timeout);
      StaysOpened(t, es[1..], id, a, b, tick, timeout);
      assert forall i :: 0 <= i < |es[1..]| ==> es[1..][i] == es[i + 1];
    }
  }

  /** The run so far, a proposal at `tick`, and what follows. */
  function AfterProposal(timeout: nat, before: seq<Event>, a: Player, b: Player, tick: nat, after: seq<Event>): State {
    Run(Step(Run(Init(timeout), before), Proposing(a, b, tick)), after)
  }

  /**
   A trade proposed at `tick` is there on every run that follows, and is not expired as long as no expiry
   comes later than `tick` plus the time-out.
   */
  lemma {:induction false} NotExpiredInTime(timeout: nat, before: seq<Event>, a: Player, b: Player, tick: nat,
                                            after: seq<Event>)
    requires var s := Run(Init(timeout), before); a !in s.active && b !in s.active
    ensures var id := Run(Init(timeout), before).nextId; var t := AfterProposal(timeout, before, a, b, tick, after);
      && id in t.trades && OpenedBy(t.trades[id], a, b, tick, timeout)
      && ((forall i :: 0 <= i < |after| && after[i].Expiring? ==> after[i].tick <= tick + timeout) ==>
            !t.trades[id].phase.Expired?)
  {
    var s := Run(Init(timeout), before);
    TimeoutKept(Init(timeout), before);
    StaysOpened(Step(s, Proposing(a, b, tick)), after, s.nextId, a, b, tick, timeout);
  }

  /** Someone's live trade is past its time. */
  ghost predicate Overdue(s: State, p: Player, tick: nat) {
    exists id :: id in s.trades && s.trades[id].Live() && s.trades[id].Has(p)
              && s.trades[id].createdTick + s.trades[id].timeoutTicks < tick
  }

  /** Expiry ends exactly the live trades past their time and drops exactly their players' entries. */
  lemma ExpiryExactly(s: State, tick: nat)
    ensures var t := Step(s, Expiring(tick));
      && t.trades.Keys == s.trades.Keys && t.nextId == s.nextId
      && (forall id :: id in s.trades ==>
            t.trades[id] == if s.trades[id].Live() && s.trades[id].createdTick + s.trades[id].timeoutTicks < tick
                            then s.trades[id].(phase := Expired) else s.trades[id])
      && (forall p :: p in t.active <==> p in s.active && !Overdue(s, p, tick))
      && (forall p :: p in t.active ==> t.active[p] == s.active[p])
  {
    var t := Step(s, Expiring(tick));
    forall p | p in s.active
      ensures p in t.active <==> !Overdue(s, p, tick)
    {
      if Overdue(s, p, tick) {
        var id :| id in s.trades && s.trades[id].Live() && s.trades[id].Has(p)
               && s.trades[id].createdTick + s.trades[id].timeoutTicks < tick;
        assert TimedOut(s.trades[id], tick);
      }
    }
  }

  /**
   The first expiry after `tick` plus the time-out makes the trade expired exactly if it was still live,
   and then neither player has an entry left; a trade that was over stays as it is.
   */
  lemma {:induction false} ExpiresAfterTime(timeout: nat, before: seq<Event>, a: Player, b: Player, tick: nat,
                                            after: seq<Event>, late: nat)
    requires var s := Run(Init(timeout), before); a !in s.active && b !in s.active
    requires forall i :: 0 <= i < |after| && after[i].Expiring? ==> after[i].tick <= tick + timeout
    requires late > tick + timeout
    ensures var id := Run(Init(timeout), before).nextId; var t := AfterProposal(timeout, before, a, b, tick, after);
      var u := Step(t, Expiring(late));
      && id in t.trades && id in u.trades
      && (u.trades[id].phase.Expired? <==> t.trades[id].Live())
      && (t.trades[id].Live() ==> a !in u.active && b !in u.active)
      && (!t.trades[id].Live() ==> u.trades[id] == t.trades[id])
  {
    var id := Run(Init(timeout), before).nextId;
    var t := AfterProposal(timeout, before, a, b, tick, after);
    NotExpiredInTime(timeout, before, a, b, tick, after);
    ExpiryExactly(t, late);
    if t.trades[id].Live() {
      assert t.trades[id].Has(a) && t.trades[id].Has(b);
      assert Overdue(t, a, late) && Overdue(t, b, late);
    }
  }

  // ---------- Offers ----------

  /** How much of an item the stacks hold together. */
  function Amount(items: seq<Stack>, item: ItemId): nat {
    if items == [] then 0 else Amount(items[1..], item) + if items[0].item == item then items[0].quantity else 0
  }

  lemma {:induction false} StackAdds(items: seq<Stack>, item: ItemId, quantity: nat, x: ItemId)
    ensures Amount(AddStack(items, item, quantity), x) == Amount(items, x) + if x == item then quantity else 0
  {
    if items != [] && items[0].item != item {
      StackAdds(items[1..], item, quantity, x);
    }
  }

  /**
   An accepted addition gives the player's own side that much more of the item and nothing else, leaves
   the other side and all other trades alone, and takes back both confirmations.
   */
  lemma {:induction false} AddedExactly(s: State, id: TradeId, p: Player, item: ItemId, quantity: nat, x: ItemId)
    requires AddItem(s, id, p, item, quantity).1 == ItemAdded
    ensures var t := Step(s, Adding(id, p, item, quantity));
      && id in s.trades && s.trades[id].Has(p) && t.trades.Keys == s.trades.Keys && t.active == s.active
      && (forall k :: k in s.trades && k != id ==> t.trades[k] == s.trades[k])
      && t.trades[id].phase == Negotiating
      && !t.trades[id].initiatorOffer.confirmed && !t.trades[id].acceptorOffer.confirmed
      && Amount(t.trades[id].initiatorOffer.items, x) == Amount(s.trades[id].initiatorOffer.items, x)
           + (if p == s.trades[id].initiator && x == item then quantity else 0)
      && Amount(t.trades[id].acceptorOffer.items, x) == Amount(s.trades[id].acceptorOffer.items, x)
           + (if p != s.trades[id].initiator && x == item then quantity else 0)
  {
    StackAdds(s.trades[id].initiatorOffer.items, item, quantity, x);
    StackAdds(s.trades[id].acceptorOffer.items, item, quantity, x);
  }

  // ---------- Confirmation and cancellation ----------

  /** A confirmation executes exactly when it comes from the other side than the one that confirmed before. */
  lemma ExecutedExactly(s: State, seen: Seen, id: TradeId, p: Player)
    requires Sound(s, seen)
    ensures Confirm(s, id, p).1.Executed? <==>
      && id in s.trades
      && (|| (s.trades[id].phase.InitiatorConfirmed? && p == s.trades[id].acceptor && p != s.trades[id].initiator)
          || (s.trades[id].phase.AcceptorConfirmed? && p == s.trades[id].initiator))
    ensures Confirm(s, id, p).1.Executed? ==> var t := Confirm(s, id, p).0;
      && t.trades[id].phase.Completed? && DealOf(t.trades[id]) == DealOf(s.trades[id])
      && forall q :: q in t.active <==> q in s.active && !s.trades[id].Has(q)
  {}

  /** A participant can cancel in any phase; the trade is then over and its players have no entries. */
  lemma CancelledExactly(s: State, id: TradeId, p: Player)
    ensures var (t, r) := Cancel(s, id, p);
      && (r.TradeCancelled? <==> id in s.trades && s.trades[id].Has(p))
      && (r.TradeCancelled? ==>
            && t.trades[id].phase.Cancelled? && DealOf(t.trades[id]) == DealOf(s.trades[id])
            && (forall k :: k in s.trades && k != id ==> k in t.trades && t.trades[k] == s.trades[k])
            && (forall q :: q in t.active <==> q in s.active && !s.trades[id].Has(q)))
  {}

  /** The answer to an event, where there is one. */
  function Answer(s: State, e: Event): Option<TResult> {
    match e
    case Proposing(i, a, tick) => Some(Propose(s, i, a, tick).1)
    case Accepting(id, p) => Some(Accept(s, id, p).1)
    case Adding(id, p, item, quantity) => Some(AddItem(s, id, p, item, quantity).1)
    case Confirming(id, p) => Some(Confirm(s, id, p).1)
    case Cancelling(id, p) => Some(Cancel(s, id, p).1)
    case Expiring(_) => None
  }

  /** When an event is taken: who may do what in which phase. */
  predicate Takes(s: State, e: Event) {
    match e
    case Proposing(i, a, _) => i !in s.active && a !in s.active
    case Accepting(id, p) => id in s.trades && s.trades[id].phase == Proposed && p == s.trades[id].acceptor
    case Adding(id, p, _, _) => Negotiates(s, id, p)
    case Confirming(id, p) => Negotiates(s, id, p)
    case Cancelling(id, p) => id in s.trades && (p == s.trades[id].initiator || p == s.trades[id].acceptor)
    case Expiring(_) => true
  }

  predicate Negotiates(s: State, id: TradeId, p: Player) {
    && id in s.trades && (p == s.trades[id].initiator || p == s.trades[id].acceptor)
    && s.trades[id].phase in {Negotiating, InitiatorConfirmed, AcceptorConfirmed}
  }

  /** Every event is refused exactly when it is out of place. */
  lemma RefusedExactly(s: State, e: Event)
    requires !e.Expiring?
    ensures Answer(s, e).value.Failed? <==> !Takes(s, e)
    ensures e.Proposing? && Takes(s, e) ==> Step(s, e).active == s.active[e.initiator := s.nextId]
    ensures e.Accepting? && Takes(s, e) ==>
      Step(s, e).active == s.active[e.player := e.id] && Step(s, e).trades[e.id].phase == Negotiating
  {}

  /** The first reason to refuse an event that is out of place. */
  function Reason(s: State, e: Event): TError {
    match e
    case Proposing(_, _, _) => AlreadyTrading
    case Accepting(id, p) =>
      if id !in s.trades then NotFound(id) else if p != s.trades[id].acceptor then NotParticipant else InvalidState
    case Adding(id, _, _, _) => NotNegotiating(s, id)
    case Confirming(id, _) => NotNegotiating(s, id)
    case Cancelling(id, _) => if id !in s.trades then NotFound(id) else NotParticipant
    case Expiring(_) => InvalidState
  }

  function NotNegotiating(s: State, id: TradeId): TError {
    if id !in s.trades then NotFound(id)
    else if s.trades[id].phase in {Proposed, Completed, Cancelled, Expired} then InvalidState
    else NotParticipant
  }

  /** What an accepted event is answered with, and the reason any other one is refused for. */
  lemma AnsweredExactly(s: State, e: Event)
    requires !e.Expiring? && forall id :: id in s.trades ==> s.trades[id].id == id
    ensures var r := Answer(s, e).value;
      && (!Takes(s, e) ==> r == Failed(Reason(s, e)))
      && (Takes(s, e) && e.Proposing? ==> r == Created(s.nextId))
      && (Takes(s, e) && e.Accepting? ==> r == Accepted(e.id))
      && (Takes(s, e) && e.Adding? ==> r == ItemAdded)
      && (Takes(s, e) && e.Confirming? ==> var t := s.trades[e.id];
            r == Confirmed || r == Executed(e.id, t.acceptorOffer.items, t.initiatorOffer.items))
      && (Takes(s, e) && e.Cancelling? ==> r == TradeCancelled(e.id))
  {}

  /** A refused event changes nothing; an accepted one touches no trade but its own and keeps who trades. */
  lemma OnlyItsOwn(s: State, e: Event, k: TradeId)
    requires !e.Expiring? && k in s.trades && k < s.nextId
    ensures Answer(s, e).value.Failed? ==> Step(s, e) == s
    ensures var t := Step(s, e);
      && k in t.trades && (e.Proposing? || e.id != k ==> t.trades[k] == s.trades[k])
      && t.trades[k].initiator == s.trades[k].initiator && t.trades[k].acceptor == s.trades[k].acceptor
      && t.trades[k].createdTick == s.trades[k].createdTick
  {}
}

/** Player-to-player trades: proposal, negotiation, two-sided confirmation, cancellation, expiry. */
module Trading {
  import opened Wrappers
  import opened OrderedKeys

  type TradeId = nat
  type Player = string
  type ItemId = nat

  datatype Stack = Stack(item: ItemId, quantity: nat)

  datatype Phase = Proposed | Negotiating | InitiatorConfirmed | AcceptorConfirmed | Completed | Cancelled | Expired

  datatype Offer = Offer(items: seq<Stack>, gold: nat, confirmed: bool)

  datatype Session = Session(id: TradeId, initiator: Player, acceptor: Player, phase: Phase,
                             initiatorOffer: Offer, acceptorOffer: Offer, createdTick: nat, timeoutTicks: nat) {
    predicate Has(p: Player) { p == initiator || p == acceptor }
    predicate Live() { !phase.Completed? && !phase.Cancelled? && !phase.Expired? }
    predicate Open() { phase.Negotiating? || phase.InitiatorConfirmed? || phase.AcceptorConfirmed? }
  }

  datatype TError = NotFound(id: TradeId) | NotParticipant | InvalidState | AlreadyTrading

  datatype TResult =
    | Created(id: TradeId)
    | Accepted(id: TradeId)
    | ItemAdded
    | Confirmed
    | Executed(id: TradeId, initiatorReceived: seq<Stack>, acceptorReceived: seq<Stack>)
    | TradeCancelled(id: TradeId)
    | Failed(error: TError)

  datatype State = State(trades: map<TradeId, Session>, nextId: TradeId, active: map<Player, TradeId>, timeout: nat)

  function Init(timeout: nat): State { State(map[], 1, map[], timeout) }

  const NO_OFFER: Offer := Offer([], 0, false)

  function With(s: State, t: Session): State {
    s.(trades := s.trades[t.id := t])
  }

  function Propose(s: State, initiator: Player, acceptor: Player, tick: nat): (State, TResult) {
    if initiator in s.active || acceptor in s.active then
      (s, Failed(AlreadyTrading))
    else
      var id := s.nextId;
      var t := Session(id, initiator, acceptor, Proposed, NO_OFFER, NO_OFFER, tick, s.timeout);
      (s.(nextId := id + 1, trades := s.trades[id := t], active := s.active[initiator := id]), Created(id))
  }

  function Accept(s: State, id: TradeId, player: Player): (State, TResult) {
    if id !in s.trades then (s, Failed(NotFound(id)))
    else if s.trades[id].acceptor != player then (s, Failed(NotParticipant))
    else if !s.trades[id].phase.Proposed? then (s, Failed(InvalidState))
    else (s.(trades := s.trades[id := s.trades[id].(phase := Negotiating)], active := s.active[player := id]),
        Accepted(id))
  }

  /** Add to the first stack of the item, or append a new one. */
  function AddStack(items: seq<Stack>, item: ItemId, quantity: nat): seq<Stack> {
    if items == [] then [Stack(item, quantity)]
    else if items[0].item == item then [Stack(item, items[0].quantity + quantity)] + items[1..]
    else [items[0]] + AddStack(items[1..], item, quantity)
  }

  /** Any change of an offer takes back both confirmations. */
  function Reopened(t: Session): Session {
    t.(phase := Negotiating,
       initiatorOffer := t.initiatorOffer.(confirmed := false),
       acceptorOffer := t.acceptorOffer.(confirmed := false))
  }

  function AddItem(s: State, id: TradeId, player: Player, item: ItemId, quantity: nat): (State, TResult) {
    if id !in s.trades then
      (s, Failed(NotFound(id)))
    else
      var t := s.trades[id];
      if !t.Open() then
        (s, Failed(InvalidState))
      else if player == t.initiator then
        var r := Reopened(t);
        var offer := r.initiatorOffer.(items := AddStack(t.initiatorOffer.items, item, quantity));
        (s.(trades := s.trades[id := r.(initiatorOffer := offer)]), ItemAdded)
      else if player == t.acceptor then
        var r := Reopened(t);
        var offer := r.acceptorOffer.(items := AddStack(t.acceptorOffer.items, item, quantity));
        (s.(trades := s.trades[id := r.(acceptorOffer := offer)]), ItemAdded)
      else
        (s, Failed(NotParticipant))
  }

  function ConfirmedBy(t: Session, player: Player): Session
    requires t.Has(player)
  {
    if player == t.initiator then
      t.(initiatorOffer := t.initiatorOffer.(confirmed := true),
         phase := if t.acceptorOffer.confirmed then Completed else InitiatorConfirmed)
    else
      t.(acceptorOffer := t.acceptorOffer.(confirmed := true),
         phase := if t.initiatorOffer.confirmed then Completed else AcceptorConfirmed)
  }

  function Confirm(s: State, id: TradeId, player: Player): (State, TResult) {
    if id !in s.trades then (s, Failed(NotFound(id)))
    else if !s.trades[id].Open() then (s, Failed(InvalidState))
    else if !s.trades[id].Has(player) then (s, Failed(NotParticipant))
    else
      var t := ConfirmedBy(s.trades[id], player);
      var u := s.(trades := s.trades[id := t]);
      if t.phase.Completed? then
        (u.(active := s.active - {t.initiator, t.acceptor}),
            Executed(t.id, t.acceptorOffer.items, t.initiatorOffer.items))
      else
        (u, Confirmed)
  }

  function Cancel(s: State, id: TradeId, player: Player): (State, TResult) {
    if id !in s.trades then (s, Failed(NotFound(id)))
    else if !s.trades[id].Has(player) then (s, Failed(NotParticipant))
    else
      var t := s.trades[id];
      (s.(trades := s.trades[id := t.(phase := Cancelled)], active := s.active - {t.initiator, t.acceptor}),
          TradeCancelled(id))
  }

  predicate TimedOut(t: Session, tick: nat) {
    t.Live() && tick > t.createdTick + t.timeoutTicks
  }

  function ExpiredIf(t: Session, tick: nat): Session {
    if TimedOut(t, tick) then t.(phase := Expired) else t
  }

  function Leavers(s: State, tick: nat): set<Player> {
    (set id | id in s.trades && TimedOut(s.trades[id], tick) :: s.trades[id].initiator) +
    (set id | id in s.trades && TimedOut(s.trades[id], tick) :: s.trades[id].acceptor)
  }

  function Expire(s: State, tick: nat): State {
    s.(trades := map id | id in s.trades ::
         ExpiredIf(s.trades[id], tick),
       active := s.active - Leavers(s, tick))
  }

  // ---------- The manager ----------

  class TradeManager {
    var trades: map<TradeId, Session>
    var nextId: TradeId
    var active: map<Player, TradeId>
    const timeout: nat

    function View(): State
      reads this
    {
      State(trades, nextId, active, timeout)
    }

    constructor (defaultTimeout: nat)
      ensures View() == Init(defaultTimeout)
    {
      trades, nextId, active, timeout := map[], 1, map[], defaultTimeout;
    }

    method ProposeTrade(initiator: Player, acceptor: Player, tick: nat) returns (r: TResult)
      modifies this
      ensures (View(), r) == Propose(old(View()), initiator, acceptor, tick)
    {
      if initiator in active {
        return Failed(AlreadyTrading);
      }
      if acceptor in active {
        return Failed(AlreadyTrading);
      }
      var id := nextId;
      nextId := nextId + 1;
      trades := trades[id := Session(id, initiator, acceptor, Proposed, NO_OFFER, NO_OFFER, tick, timeout)];
      active := active[initiator := id];
      r := Created(id);
    }

    method AcceptTrade(id: TradeId, player: Player) returns (r: TResult)
      modifies this
      ensures (View(), r) == Accept(old(View()), id, player)
    {
      if id !in trades {
        return Failed(NotFound(id));
      }
      if trades[id].acceptor != player {
        return Failed(NotParticipant);
      }
      if trades[id].phase != Proposed {
        return Failed(InvalidState);
      }
      trades := trades[id := trades[id].(phase := Negotiating)];
      active := active[player := id];
      r := Accepted(id);
    }

    method AddToOffer(id: TradeId, player: Player, item: ItemId, quantity: nat) returns (r: TResult)
      modifies this`trades
      ensures View() == AddItem(old(View()), id, player, item, quantity).0
      ensures r == AddItem(old(View()), id, player, item, quantity).1
    {
      if id !in trades {
        return Failed(NotFound(id));
      }
      var trade := trades[id];
      if !trade.Open() {
        return Failed(InvalidState);
      }
      if trade.initiator != player && trade.acceptor != player {
        return Failed(NotParticipant);
      }
      trade := Reopened(trade);
      if trade.initiator == player {
        var items := PutStack(trade.initiatorOffer.items, item, quantity);
        trade := trade.(initiatorOffer := trade.initiatorOffer.(items := items));
      } else {
        var items := PutStack(trade.acceptorOffer.items, item, quantity);
        trade := trade.(acceptorOffer := trade.acceptorOffer.(items := items));
      }
      trades := trades[id := trade];
      r := ItemAdded;
    }

    method ConfirmTrade(id: TradeId, player: Player) returns (r: TResult)
      modifies this
      ensures View() == Confirm(old(View()), id, player).0
      ensures r == Confirm(old(View()), id, player).1
    {
      if id !in trades {
        return Failed(NotFound(id));
      }
      var trade := trades[id];
      if !trade.Open() {
        return Failed(InvalidState);
      }
      if trade.initiator == player {
        trade := trade.(initiatorOffer := trade.initiatorOffer.(confirmed := true));
        trade := trade.(phase := if trade.acceptorOffer.confirmed then Completed else InitiatorConfirmed);
      } else if trade.acceptor == player {
        trade := trade.(acceptorOffer := trade.acceptorOffer.(confirmed := true));
        trade := trade.(phase := if trade.initiatorOffer.confirmed then Completed else AcceptorConfirmed);
      } else {
        return Failed(NotParticipant);
      }
      trades := trades[id := trade];
      if trade.phase == Completed {
        active := active - {trade.initiator};
        active := active - {trade.acceptor};
        assert active == old(active) - {trade.initiator, trade.acceptor};
        return Executed(trade.id, trade.acceptorOffer.items, trade.initiatorOffer.items);
      }
      r := Confirmed;
    }

    method CancelTrade(id: TradeId, player: Player) returns (r: TResult)
      modifies this
      ensures View() == Cancel(old(View()), id, player).0
      ensures r == Cancel(old(View()), id, player).1
    {
      if id !in trades {
        return Failed(NotFound(id));
      }
      var trade := trades[id];
      if trade.initiator != player && trade.acceptor != player {
        return Failed(NotParticipant);
      }
      trades := trades[id := trade.(phase := Cancelled)];
      active := active - {trade.initiator};
      active := active - {trade.acceptor};
      assert active == old(active) - {trade.initiator, trade.acceptor};
      r := TradeCancelled(id);
    }

    method TickExpirations(tick: nat)
      modifies this
      ensures View() == Expire(old(View()), tick)
    {
      trades, active := ExpireAll(View(), tick);
    }
  }

  /** Find the item's stack in the offer and grow it, or push a new stack. */
  method PutStack(items0: seq<Stack>, item: ItemId, quantity: nat) returns (items: seq<Stack>)
    ensures items == AddStack(items0, item, quantity)
  {
    var i := 0;
    while i < |items0| && items0[i].item != item
      invariant 0 <= i <= |items0|
      invariant forall j :: 0 <= j < i ==> items0[j].item != item
    {
      i := i + 1;
    }
    AddStackAt(items0, item, quantity, i);
    if i < |items0| {
      items := items0[i := Stack(item, items0[i].quantity + quantity)];
    } else {
      items := items0 + [Stack(item, quantity)];
    }
  }

  /** With no stack of the item before position `i`, the stack at `i` grows, or a new one is appended. */
  lemma {:induction false} AddStackAt(items: seq<Stack>, item: ItemId, quantity: nat, i: nat)
    requires i <= |items| && (forall j :: 0 <= j < i ==> items[j].item != item)
    requires i < |items| ==> items[i].item == item
    ensures AddStack(items, item, quantity) ==
      if i < |items| then items[i := Stack(item, items[i].quantity + quantity)] else items + [Stack(item, quantity)]
    decreases i
  {
    if i == 0 {
      assert items != [] ==> items[0 := Stack(item, items[0].quantity + quantity)]
                             == [Stack(item, items[0].quantity + quantity)] + items[1..];
    } else {
      AddStackAt(items[1..], item, quantity, i - 1);
      assert items == [items[0]] + items[1..];
    }
  }

  /** The expiry loop, over the trades in whatever order the hash map yields them. */
  method ExpireAll(s: State, tick: nat) returns (trades: map<TradeId, Session>, active: map<Player, TradeId>)
    ensures trades == Expire(s, tick).trades
    ensures active == Expire(s, tick).active
  {
    trades, active := s.trades, s.active;
    var todo := s.trades.Keys;
    while todo != {}
      invariant todo <= s.trades.Keys && trades.Keys == s.trades.Keys
      invariant forall id :: id in s.trades && id in todo ==> trades[id] == s.trades[id]
      invariant forall id :: id in s.trades && id !in todo ==> trades[id] == ExpiredIf(s.trades[id], tick)
      invariant forall p :: p in active ==> p in s.active && active[p] == s.active[p]
      invariant forall id :: id in s.trades && id !in todo && TimedOut(s.trades[id], tick) ==>
        s.trades[id].initiator !in active && s.trades[id].acceptor !in active
      invariant forall p :: p in s.active && p !in active ==> p in Leavers(s, tick)
      decreases todo
    {
      var id :| id in todo;
      todo := todo - {id};
      if TimedOut(trades[id], tick) {
        active := active - {trades[id].initiator};
        active := active - {trades[id].acceptor};
        trades := trades[id := trades[id].(phase := Expired)];
      }
    }
  }
}

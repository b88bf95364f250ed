/** The order lifecycle of the exchange pallet: its storage (`NextOrderId`,
    `Orders`), its events and errors, and the three dispatchables
    `submit_order`, `take_order` and `cancel_order`.

    Each dispatchable is given twice: as a function from the old state to the
    new state and the call's result (the specification), and as a method of
    the class `Pallet` that updates storage in place and undoes its writes
    where the source's `try_mutate`, `try_mutate_exists` and
    `with_transaction_result` discard them.  Every method is proved to end in
    the state its function computes. */
module Exchange {
  import opened Wrappers
  import opened Ledger

  /** `OrderId = u32` in the runtime the pallet is tested with. */
  const MAX_ORDER_ID: nat := 0xFFFF_FFFF

  type OrderId = x: nat | x <= MAX_ORDER_ID

  datatype Order = Order(
    baseCurrencyId: CurrencyId,
    baseAmount: Balance,
    targetCurrencyId: CurrencyId,
    targetAmount: Balance,
    owner: AccountId)

  datatype Event =
    | OrderCreated(id: OrderId, order: Order)
    | OrderTaken(taker: AccountId, id: OrderId, order: Order)
    | OrderCancelled(id: OrderId)

  datatype Error = OrderIdOverflow | InvalidOrderId | InsufficientBalance | NotOwner

  /** What a dispatchable fails with: an error of this pallet, or the error
      of the currency module, which `?` passes on unchanged. */
  datatype DispatchError = Module(error: Error) | Currency(ledgerError: LedgerError)

  type DispatchResult = Result<(), DispatchError>

  /** Everything the dispatchables read or write. */
  datatype State = State(
    nextOrderId: Option<OrderId>,
    orders: map<OrderId, Order>,
    balances: Balances,
    events: seq<Event>)

  /** Storage before any call: no counter, no order, no event. */
  function Genesis(endowment: Balances): State {
    State(None, map[], endowment, [])
  }

  /** The id the next submitted order gets (`unwrap_or_default`). */
  function NextId(s: State): OrderId {
    s.nextOrderId.GetOr(0)
  }

  // ---------------------------------------------------------------------
  // The dispatchables as functions of the state.
  // ---------------------------------------------------------------------

  /** `submit_order`: reserve `baseAmount` of the base currency from `who`
      and store the order under the next id. */
  function Submit(s: State, who: AccountId, baseCurrencyId: CurrencyId, baseAmount: Balance,
                  targetCurrencyId: CurrencyId, targetAmount: Balance): (r: (State, DispatchResult))
    ensures r.1 == Err(Module(OrderIdOverflow)) <==> NextId(s) == MAX_ORDER_ID
    ensures r.1 == Err(Currency(BalanceTooLow)) <==>
      NextId(s) < MAX_ORDER_ID && FreeBalance(s.balances, baseCurrencyId, who) < baseAmount
    ensures r.1.Ok? <==> NextId(s) < MAX_ORDER_ID && baseAmount <= FreeBalance(s.balances, baseCurrencyId, who)
    ensures r.1.Err? ==> r.0 == s
    ensures r.1.Ok? ==>
      var id := NextId(s);
      var order := Order(baseCurrencyId, baseAmount, targetCurrencyId, targetAmount, who);
      && id < MAX_ORDER_ID
      && r.0.nextOrderId == Some(id + 1)
      && r.0.orders == s.orders[id := order]
      && r.0.events == s.events + [OrderCreated(id, order)]
      && FreeBalance(r.0.balances, baseCurrencyId, who) + baseAmount == FreeBalance(s.balances, baseCurrencyId, who)
      && ReservedBalance(r.0.balances, baseCurrencyId, who) == ReservedBalance(s.balances, baseCurrencyId, who) + baseAmount
      && OthersUnchanged(s.balances, r.0.balances, {(baseCurrencyId, who)})
  {
    var orderId := NextId(s);
    var order := Order(baseCurrencyId, baseAmount, targetCurrencyId, targetAmount, who);
    if orderId == MAX_ORDER_ID then (s, Err(Module(OrderIdOverflow)))
    else
      match Reserve(s.balances, baseCurrencyId, who, baseAmount)
      case Err(e) => (s, Err(Currency(e)))
      case Ok(b) =>
        (State(Some(orderId + 1), s.orders[orderId := order], b, s.events + [OrderCreated(orderId, order)]), Ok(()))
  }

  /** The body of the transaction in `take_order`: pay the owner, then
      release the escrow to the taker.  On `Ok` it gives the balances the
      transaction commits; on `Err` nothing is committed. */
  function Settle(b: Balances, taker: AccountId, order: Order): (r: Result<Balances, DispatchError>)
    ensures r == Err(Currency(BalanceTooLow)) <==> FreeBalance(b, order.targetCurrencyId, taker) < order.targetAmount
    ensures r.Ok? <==>
      && order.targetAmount <= FreeBalance(b, order.targetCurrencyId, taker)
      && order.baseAmount <= ReservedBalance(b, order.baseCurrencyId, order.owner)
    ensures r.Ok? ==>
      forall c: CurrencyId, who: AccountId ::
        ReservedBalance(r.value, c, who)
        == ReservedBalance(b, c, who) - (if (c, who) == (order.baseCurrencyId, order.owner) then order.baseAmount else 0)
    // the taker pays the target amount to the owner and receives the base
    // amount, for any accounts and currencies (a self-take, one currency)
    ensures r.Ok? ==>
      forall c: CurrencyId, who: AccountId ::
        FreeBalance(r.value, c, who)
          + (if (c, who) == (order.targetCurrencyId, taker) then order.targetAmount else 0)
        == FreeBalance(b, c, who)
          + (if (c, who) == (order.targetCurrencyId, order.owner) then order.targetAmount else 0)
          + (if (c, who) == (order.baseCurrencyId, taker) then order.baseAmount else 0)
  {
    match Transfer(b, order.targetCurrencyId, taker, order.owner, order.targetAmount)
    case Err(e) => Err(Currency(e))
    case Ok(b1) =>
      var (b2, residual) := RepatriateReserved(b1, order.baseCurrencyId, order.owner, taker, order.baseAmount);
      if residual != 0 then Err(Module(InsufficientBalance)) else Ok(b2)
  }

  /** `take_order`: remove the order and settle it.  A failed settlement is
      discarded by `.unwrap_or(())`: the order is removed all the same and
      the call succeeds. */
  function Take(s: State, who: AccountId, orderId: OrderId): (r: (State, DispatchResult))
    ensures r.1 == Err(Module(InvalidOrderId)) <==> orderId !in s.orders
    ensures r.1.Ok? <==> orderId in s.orders
    ensures r.1.Err? ==> r.0 == s
    ensures r.1.Ok? ==>
      && r.0.nextOrderId == s.nextOrderId
      && r.0.orders == s.orders - {orderId}
    ensures r.1.Ok? ==>
      var order := s.orders[orderId];
      match Settle(s.balances, who, order)
      case Ok(b) => r.0.balances == b && r.0.events == s.events + [OrderTaken(who, orderId, order)]
      case Err(_) => r.0.balances == s.balances && r.0.events == s.events
  {
    if orderId !in s.orders then (s, Err(Module(InvalidOrderId)))
    else
      var order := s.orders[orderId];
      var remaining := s.orders - {orderId};
      match Settle(s.balances, who, order)
      case Ok(b) => (State(s.nextOrderId, remaining, b, s.events + [OrderTaken(who, orderId, order)]), Ok(()))
      case Err(_) => (s.(orders := remaining), Ok(()))
  }

  /** `cancel_order`: the owner withdraws the order.  No ledger call is
      made. */
  function Cancel(s: State, who: AccountId, orderId: OrderId): (r: (State, DispatchResult))
    ensures r.1 == Err(Module(InvalidOrderId)) <==> orderId !in s.orders
    ensures r.1 == Err(Module(NotOwner)) <==> orderId in s.orders && s.orders[orderId].owner != who
    ensures r.1.Ok? <==> orderId in s.orders && s.orders[orderId].owner == who
    ensures r.1.Err? ==> r.0 == s
    ensures r.1.Ok? ==>
      && r.0.nextOrderId == s.nextOrderId
      && r.0.orders == s.orders - {orderId}
      && r.0.balances == s.balances
      && r.0.events == s.events + [OrderCancelled(orderId)]
  {
    if orderId !in s.orders then (s, Err(Module(InvalidOrderId)))
    else if s.orders[orderId].owner != who then (s, Err(Module(NotOwner)))
    else (s.(orders := s.orders - {orderId}, events := s.events + [OrderCancelled(orderId)]), Ok(()))
  }

  // ---------------------------------------------------------------------
  // The pallet's storage, updated in place.
  // ---------------------------------------------------------------------

  class Pallet {
    /** `NextOrderId` storage value. */
    var nextOrderId: Option<OrderId>
    /** `Orders` storage map. */
    var orders: map<OrderId, Order>
    /** The currency module's balances. */
    var balances: Balances
    /** Events deposited by this pallet, oldest first. */
    var events: seq<Event>

    function Snapshot(): State
      reads this
    {
      State(nextOrderId, orders, balances, events)
    }

    constructor (endowment: Balances)
      ensures Snapshot() == Genesis(endowment)
    {
      nextOrderId := None;
      orders := map[];
      balances := endowment;
      events := [];
    }

    method SubmitOrder(who: AccountId, baseCurrencyId: CurrencyId, baseAmount: Balance,
                       targetCurrencyId: CurrencyId, targetAmount: Balance) returns (r: DispatchResult)
      modifies this
      ensures (Snapshot(), r) == Submit(old(Snapshot()), who, baseCurrencyId, baseAmount, targetCurrencyId, targetAmount)
    {
      // `NextOrderId::try_mutate`: the closure edits a copy of the stored
      // value, which is written back only when the closure returns `Ok`.
      var id := nextOrderId;
      var orderId := id.GetOr(0);
      var order := Order(baseCurrencyId, baseAmount, targetCurrencyId, targetAmount, who);
      if orderId == MAX_ORDER_ID {
        return Err(Module(OrderIdOverflow));
      }
      id := Some(orderId + 1);
      var reserved := Reserve(balances, baseCurrencyId, who, baseAmount);
      if reserved.Err? {
        return Err(Currency(reserved.error));
      }
      balances := reserved.value;
      orders := orders[orderId := order];
      events := events + [OrderCreated(orderId, order)];
      nextOrderId := id;
      r := Ok(());
    }

    /** The transaction of `take_order` (`with_transaction_result`): the
        ledger and event writes made inside it are undone when it fails. */
    method SettleOrder(who: AccountId, orderId: OrderId, order: Order) returns (r: Result<(), DispatchError>)
      modifies this
      ensures nextOrderId == old(nextOrderId) && orders == old(orders)
      ensures r.Ok? <==> Settle(old(balances), who, order).Ok?
      ensures r.Ok? ==>
        balances == Settle(old(balances), who, order).value && events == old(events) + [OrderTaken(who, orderId, order)]
      ensures r.Err? ==> r.error == Settle(old(balances), who, order).error && balances == old(balances) && events == old(events)
    {
      var savedBalances, savedEvents := balances, events;
      var transferred := Transfer(balances, order.targetCurrencyId, who, order.owner, order.targetAmount);
      if transferred.Err? {
        return Err(Currency(transferred.error));
      }
      balances := transferred.value;
      var repatriated := RepatriateReserved(balances, order.baseCurrencyId, order.owner, who, order.baseAmount);
      balances := repatriated.0;
      if repatriated.1 != 0 {
        // the transaction is rolled back: the owner's payment and the part
        // of the escrow already moved are both undone
        balances, events := savedBalances, savedEvents;
        return Err(Module(InsufficientBalance));
      }
      events := events + [OrderTaken(who, orderId, order)];
      r := Ok(());
    }

    method TakeOrder(who: AccountId, orderId: OrderId) returns (r: DispatchResult)
      modifies this
      ensures (Snapshot(), r) == Take(old(Snapshot()), who, orderId)
    {
      // `Orders::try_mutate_exists`: `order.take()` empties the entry, and
      // the emptied entry is written back when the closure returns `Ok`.
      if orderId !in orders {
        return Err(Module(InvalidOrderId));
      }
      var order := orders[orderId];
      var settled := SettleOrder(who, orderId, order);
      // `.unwrap_or(())`: a failed settlement is ignored
      orders := orders - {orderId};
      r := Ok(());
    }

    method CancelOrder(who: AccountId, orderId: OrderId) returns (r: DispatchResult)
      modifies this
      ensures (Snapshot(), r) == Cancel(old(Snapshot()), who, orderId)
    {
      if orderId !in orders {
        return Err(Module(InvalidOrderId));
      }
      var order := orders[orderId];
      if order.owner != who {
        return Err(Module(NotOwner));
      }
      events := events + [OrderCancelled(orderId)];
      orders := orders - {orderId};
      r := Ok(());
    }
  }
}

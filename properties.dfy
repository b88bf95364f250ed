/** What the order lifecycle guarantees, and the two places where it keeps
    funds reserved with no order left to account for them. */
module ExchangeProperties {
  import opened Wrappers
  import opened Sums
  import opened Ledger
  import opened Exchange

  // ---------------------------------------------------------------------
  // The invariant.
  // ---------------------------------------------------------------------

  /** The escrow order `id` holds in currency `c` against account `a`. */
  function EscrowOf(orders: map<OrderId, Order>, c: CurrencyId, a: AccountId, id: OrderId): nat {
    if id in orders && orders[id].owner == a && orders[id].baseCurrencyId == c then orders[id].baseAmount else 0
  }

  /** All the escrow the open orders hold in currency `c` against `a`. */
  ghost function Escrowed(orders: map<OrderId, Order>, c: CurrencyId, a: AccountId): nat {
    Sum(orders.Keys, id => EscrowOf(orders, c, a, id))
  }

  /** Every open order is backed: an account's reserved balance covers the
      escrow of all its open orders. */
  ghost predicate EscrowCovered(s: State) {
    forall c: CurrencyId, a: AccountId :: Escrowed(s.orders, c, a) <= ReservedBalance(s.balances, c, a)
  }

  /** Every stored order has an id below the counter. */
  ghost predicate IdsBelowCounter(s: State) {
    forall id :: id in s.orders ==> id < NextId(s)
  }

  /** The ids of the `OrderCreated` events, oldest first. */
  function CreatedIds(events: seq<Event>): seq<OrderId> {
    if events == [] then []
    else
      var last := events[|events| - 1];
      CreatedIds(events[..|events| - 1]) + if last.OrderCreated? then [last.id] else []
  }

  /** Ids were issued in strictly increasing order and all below the counter. */
  ghost predicate CreatedIdsIncreasing(s: State) {
    var ids := CreatedIds(s.events);
    && (forall i, j :: 0 <= i < j < |ids| ==> ids[i] < ids[j])
    && (forall i :: 0 <= i < |ids| ==> ids[i] < NextId(s))
  }

  ghost predicate Invariant(s: State) {
    IdsBelowCounter(s) && EscrowCovered(s) && CreatedIdsIncreasing(s)
  }

  // ---------------------------------------------------------------------
  // Escrow sums.
  // ---------------------------------------------------------------------

  lemma EscrowedInsert(orders: map<OrderId, Order>, id: OrderId, o: Order, c: CurrencyId, a: AccountId)
    requires id !in orders
    ensures Escrowed(orders[id := o], c, a)
         == Escrowed(orders, c, a) + EscrowOf(orders[id := o], c, a, id)
  {
    var f := (j: OrderId) => EscrowOf(orders, c, a, j);
    var g := (j: OrderId) => EscrowOf(orders[id := o], c, a, j);
    assert orders[id := o].Keys == orders.Keys + {id};
    SumZeroKey(orders.Keys, f, id);
    SumPointUpdate(orders.Keys, f, g, id);
  }

  lemma EscrowedRemove(orders: map<OrderId, Order>, id: OrderId, c: CurrencyId, a: AccountId)
    requires id in orders
    ensures Escrowed(orders - {id}, c, a) + EscrowOf(orders, c, a, id) == Escrowed(orders, c, a)
  {
    var f := (j: OrderId) => EscrowOf(orders, c, a, j);
    var g := (j: OrderId) => EscrowOf(orders - {id}, c, a, j);
    assert (orders - {id}).Keys == orders.Keys - {id};
    SumRemove(orders.Keys, f, id);
    SumCongruent(orders.Keys - {id}, f, g);
  }

  /** Under the invariant an open order's owner has at least its base
      amount reserved. */
  lemma EscrowBacksOrder(s: State, id: OrderId)
    requires EscrowCovered(s) && id in s.orders
    ensures s.orders[id].baseAmount <= ReservedBalance(s.balances, s.orders[id].baseCurrencyId, s.orders[id].owner)
  {
    var o := s.orders[id];
    EscrowedRemove(s.orders, id, o.baseCurrencyId, o.owner);
  }

  // ---------------------------------------------------------------------
  // Each dispatchable keeps the invariant.
  // ---------------------------------------------------------------------

  lemma CreatedIdsAppend(events: seq<Event>, e: Event)
    ensures CreatedIds(events + [e]) == CreatedIds(events) + if e.OrderCreated? then [e.id] else []
  {
  }

  lemma GenesisInvariant(endowment: Balances)
    ensures Invariant(Genesis(endowment))
  {
  }

  lemma SubmitPreservesInvariant(s: State, who: AccountId, baseCurrencyId: CurrencyId, baseAmount: Balance,
                                 targetCurrencyId: CurrencyId, targetAmount: Balance)
    requires Invariant(s)
    ensures Invariant(Submit(s, who, baseCurrencyId, baseAmount, targetCurrencyId, targetAmount).0)
  {
    var r := Submit(s, who, baseCurrencyId, baseAmount, targetCurrencyId, targetAmount);
    if r.1.Ok? {
      var s' := r.0;
      var id := NextId(s);
      var o := Order(baseCurrencyId, baseAmount, targetCurrencyId, targetAmount, who);
      assert id !in s.orders;
      forall c: CurrencyId, a: AccountId ensures Escrowed(s'.orders, c, a) <= ReservedBalance(s'.balances, c, a) {
        EscrowedInsert(s.orders, id, o, c, a);
      }
      CreatedIdsAppend(s.events, OrderCreated(id, o));
    }
  }

  lemma TakePreservesInvariant(s: State, who: AccountId, orderId: OrderId)
    requires Invariant(s)
    ensures Invariant(Take(s, who, orderId).0)
  {
    var r := Take(s, who, orderId);
    if r.1.Ok? {
      var s' := r.0;
      var o := s.orders[orderId];
      forall c: CurrencyId, a: AccountId ensures Escrowed(s'.orders, c, a) <= ReservedBalance(s'.balances, c, a) {
        EscrowedRemove(s.orders, orderId, c, a);
      }
      CreatedIdsAppend(s.events, OrderTaken(who, orderId, o));
    }
  }

  lemma CancelPreservesInvariant(s: State, who: AccountId, orderId: OrderId)
    requires Invariant(s)
    ensures Invariant(Cancel(s, who, orderId).0)
  {
    var r := Cancel(s, who, orderId);
    if r.1.Ok? {
      forall c: CurrencyId, a: AccountId ensures Escrowed(r.0.orders, c, a) <= ReservedBalance(r.0.balances, c, a) {
        EscrowedRemove(s.orders, orderId, c, a);
      }
      CreatedIdsAppend(s.events, OrderCancelled(orderId));
    }
  }

  // ---------------------------------------------------------------------
  // Identifier allocation.
  // ---------------------------------------------------------------------

  /** A successful submit issues the counter's value, which no stored order
      has, and the maximum id is never issued. */
  lemma SubmitIssuesFreshId(s: State, who: AccountId, baseCurrencyId: CurrencyId, baseAmount: Balance,
                            targetCurrencyId: CurrencyId, targetAmount: Balance)
    requires Invariant(s)
    requires Submit(s, who, baseCurrencyId, baseAmount, targetCurrencyId, targetAmount).1.Ok?
    ensures var s' := Submit(s, who, baseCurrencyId, baseAmount, targetCurrencyId, targetAmount).0;
      && NextId(s) !in s.orders
      && NextId(s) < MAX_ORDER_ID
      && NextId(s') == NextId(s) + 1
      && |s'.orders| == |s.orders| + 1
      && forall id :: id in s.orders ==> id in s'.orders && s'.orders[id] == s.orders[id]
  {
  }

  // ---------------------------------------------------------------------
  // Settlement of a taken order.
  // ---------------------------------------------------------------------

  /** Under the invariant the escrow release never comes up short: the
      settlement of an open order fails exactly when the taker cannot pay. */
  lemma SettleFailsOnlyWhenTakerCannotPay(s: State, who: AccountId, orderId: OrderId)
    requires Invariant(s) && orderId in s.orders
    ensures var o := s.orders[orderId];
      Settle(s.balances, who, o).Ok? <==> o.targetAmount <= FreeBalance(s.balances, o.targetCurrencyId, who)
  {
    var o := s.orders[orderId];
    EscrowBacksOrder(s, orderId);
  }

  /** A settled take between two different accounts trading two different
      currencies: the taker pays the target amount to the owner, and the
      owner's escrow of the base amount goes to the taker's free balance. */
  lemma TakeSettles(s: State, who: AccountId, orderId: OrderId)
    requires Invariant(s) && orderId in s.orders
    requires var o := s.orders[orderId];
      && who != o.owner && o.baseCurrencyId != o.targetCurrencyId
      && o.targetAmount <= FreeBalance(s.balances, o.targetCurrencyId, who)
    ensures var o := s.orders[orderId];
      var (s', r) := Take(s, who, orderId);
      && r == Ok(())
      && s'.orders == s.orders - {orderId}
      && s'.events == s.events + [OrderTaken(who, orderId, o)]
      && FreeBalance(s'.balances, o.targetCurrencyId, who) == FreeBalance(s.balances, o.targetCurrencyId, who) - o.targetAmount
      && FreeBalance(s'.balances, o.targetCurrencyId, o.owner) == FreeBalance(s.balances, o.targetCurrencyId, o.owner) + o.targetAmount
      && ReservedBalance(s'.balances, o.baseCurrencyId, o.owner) == ReservedBalance(s.balances, o.baseCurrencyId, o.owner) - o.baseAmount
      && FreeBalance(s'.balances, o.baseCurrencyId, who) == FreeBalance(s.balances, o.baseCurrencyId, who) + o.baseAmount
      && FreeBalance(s'.balances, o.baseCurrencyId, o.owner) == FreeBalance(s.balances, o.baseCurrencyId, o.owner)
  {
    var o := s.orders[orderId];
    EscrowBacksOrder(s, orderId);
    var b1 := Transfer(s.balances, o.targetCurrencyId, who, o.owner, o.targetAmount).value;
    assert Account(b1, o.baseCurrencyId, who) == Account(s.balances, o.baseCurrencyId, who);
    assert Account(b1, o.baseCurrencyId, o.owner) == Account(s.balances, o.baseCurrencyId, o.owner);
    var (b2, residual) := RepatriateReserved(b1, o.baseCurrencyId, o.owner, who, o.baseAmount);
    assert Account(b2, o.targetCurrencyId, who) == Account(b1, o.targetCurrencyId, who);
    assert Account(b2, o.targetCurrencyId, o.owner) == Account(b1, o.targetCurrencyId, o.owner);
  }

  /** As written, a take whose settlement fails still removes the order and
      returns `Ok`: the ledger is rolled back, no `OrderTaken` is emitted,
      and the owner's base amount stays reserved with no order left to
      release it. */
  lemma FailedTakeOrphansEscrow(s: State, who: AccountId, orderId: OrderId)
    requires Invariant(s) && orderId in s.orders
    requires var o := s.orders[orderId]; FreeBalance(s.balances, o.targetCurrencyId, who) < o.targetAmount
    ensures var o := s.orders[orderId];
      var (s', r) := Take(s, who, orderId);
      && r == Ok(())
      && orderId !in s'.orders
      && s'.balances == s.balances
      && s'.events == s.events
      && Escrowed(s'.orders, o.baseCurrencyId, o.owner) + o.baseAmount
         <= ReservedBalance(s'.balances, o.baseCurrencyId, o.owner)
  {
    var o := s.orders[orderId];
    EscrowedRemove(s.orders, orderId, o.baseCurrencyId, o.owner);
  }

  /** As written, a successful cancel makes no ledger call: the owner's base
      amount stays reserved with no order left to release it. */
  lemma CancelOrphansEscrow(s: State, who: AccountId, orderId: OrderId)
    requires Invariant(s) && orderId in s.orders && s.orders[orderId].owner == who
    ensures var o := s.orders[orderId];
      var (s', r) := Cancel(s, who, orderId);
      && r == Ok(())
      && orderId !in s'.orders
      && s'.balances == s.balances
      && Escrowed(s'.orders, o.baseCurrencyId, o.owner) + o.baseAmount
         <= ReservedBalance(s'.balances, o.baseCurrencyId, o.owner)
  {
    var o := s.orders[orderId];
    EscrowedRemove(s.orders, orderId, o.baseCurrencyId, o.owner);
  }

  // ---------------------------------------------------------------------
  // Sequences of calls.
  // ---------------------------------------------------------------------

  /** One signed call into the pallet. */
  datatype Call =
    | SubmitOrder(who: AccountId, baseCurrencyId: CurrencyId, baseAmount: Balance,
                  targetCurrencyId: CurrencyId, targetAmount: Balance)
    | TakeOrder(who: AccountId, orderId: OrderId)
    | CancelOrder(who: AccountId, orderId: OrderId)

  function Apply(s: State, call: Call): (State, DispatchResult) {
    match call
    case SubmitOrder(who, bc, ba, tc, ta) => Submit(s, who, bc, ba, tc, ta)
    case TakeOrder(who, id) => Take(s, who, id)
    case CancelOrder(who, id) => Cancel(s, who, id)
  }

  /** The state after the calls, in order. */
  function Run(s: State, calls: seq<Call>): State
    decreases |calls|
  {
    if calls == [] then s else Run(Apply(s, calls[0]).0, calls[1..])
  }

  lemma ApplyPreservesInvariant(s: State, call: Call)
    requires Invariant(s)
    ensures Invariant(Apply(s, call).0)
  {
    match call
    case SubmitOrder(who, bc, ba, tc, ta) => SubmitPreservesInvariant(s, who, bc, ba, tc, ta);
    case TakeOrder(who, id) => TakePreservesInvariant(s, who, id);
    case CancelOrder(who, id) => CancelPreservesInvariant(s, who, id);
  }

  lemma {:induction false} RunPreservesInvariant(s: State, calls: seq<Call>)
    requires Invariant(s)
    ensures Invariant(Run(s, calls))
    decreases |calls|
  {
    if calls != [] {
      ApplyPreservesInvariant(s, calls[0]);
      RunPreservesInvariant(Apply(s, calls[0]).0, calls[1..]);
    }
  }

  /** Every state the pallet reaches from genesis satisfies the invariant;
      in particular the ids of the `OrderCreated` events are strictly
      increasing, so no id is issued twice. */
  lemma ReachableInvariant(endowment: Balances, calls: seq<Call>)
    ensures Invariant(Run(Genesis(endowment), calls))
    ensures var ids := CreatedIds(Run(Genesis(endowment), calls).events);
      forall i, j :: 0 <= i < j < |ids| ==> ids[i] < ids[j]
  {
    GenesisInvariant(endowment);
    RunPreservesInvariant(Genesis(endowment), calls);
  }

  /** No call lowers the counter; only a successful submit advances it. */
  lemma ApplyCounter(s: State, call: Call)
    ensures NextId(s) <= NextId(Apply(s, call).0)
    ensures NextId(Apply(s, call).0) != NextId(s) ==>
      call.SubmitOrder? && Apply(s, call).1.Ok? && NextId(Apply(s, call).0) == NextId(s) + 1
  {
  }

  /** An id below the counter that is not stored never comes back: once an
      order is taken or cancelled, no later call can take or cancel it. */
  lemma {:induction false} ResolvedStaysResolved(s: State, calls: seq<Call>, id: OrderId)
    requires id < NextId(s) && id !in s.orders
    ensures id < NextId(Run(s, calls)) && id !in Run(s, calls).orders
    decreases |calls|
  {
    if calls != [] {
      ApplyCounter(s, calls[0]);
      ResolvedStaysResolved(Apply(s, calls[0]).0, calls[1..], id);
    }
  }

  /** Exactly-once resolution: after a successful take or cancel of an
      order, and any calls after it, taking or cancelling it again fails
      with `InvalidOrderId`. */
  lemma ResolvedOnce(s: State, first: Call, calls: seq<Call>, who: AccountId)
    requires Invariant(s)
    requires (first.TakeOrder? || first.CancelOrder?) && Apply(s, first).1.Ok?
    ensures var later := Run(Apply(s, first).0, calls);
      && Take(later, who, first.orderId).1 == Err(Module(InvalidOrderId))
      && Cancel(later, who, first.orderId).1 == Err(Module(InvalidOrderId))
  {
    ApplyCounter(s, first);
    ResolvedStaysResolved(Apply(s, first).0, calls, first.orderId);
  }

  // ---------------------------------------------------------------------
  // Conservation.
  // ---------------------------------------------------------------------

  /** No call creates or destroys value in any currency. */
  lemma ApplyConservesIssuance(s: State, call: Call, c: CurrencyId)
    ensures Issuance(Apply(s, call).0.balances, c) == Issuance(s.balances, c)
  {
    match call
    case SubmitOrder(who, bc, ba, tc, ta) =>
      if Reserve(s.balances, bc, who, ba).Ok? {
        ReserveConservesIssuance(s.balances, bc, who, ba, c);
      }
    case TakeOrder(who, id) =>
      if id in s.orders {
        var o := s.orders[id];
        var t := Transfer(s.balances, o.targetCurrencyId, who, o.owner, o.targetAmount);
        if t.Ok? {
          TransferConservesIssuance(s.balances, o.targetCurrencyId, who, o.owner, o.targetAmount, c);
          RepatriateConservesIssuance(t.value, o.baseCurrencyId, o.owner, who, o.baseAmount, c);
        }
      }
    case CancelOrder(who, id) =>
  }

  lemma {:induction false} RunConservesIssuance(s: State, calls: seq<Call>, c: CurrencyId)
    ensures Issuance(Run(s, calls).balances, c) == Issuance(s.balances, c)
    decreases |calls|
  {
    if calls != [] {
      ApplyConservesIssuance(s, calls[0], c);
      RunConservesIssuance(Apply(s, calls[0]).0, calls[1..], c);
    }
  }

  /** Stored orders are never rewritten: a call only adds or removes them. */
  lemma ApplyNeverRewritesOrders(s: State, call: Call)
    requires Invariant(s)
    ensures var s' := Apply(s, call).0;
      forall id :: id in s.orders && id in s'.orders ==> s'.orders[id] == s.orders[id]
  {
  }
}

# Exchange pallet: order lifecycle

A model of the exchange pallet of the orml workshop runtime. A caller
submits an order: the pallet reserves `base_amount` of a base currency as
escrow and stores the order under a fresh id. Anyone may take the order by
paying `target_amount` of the target currency to the owner, which releases
the escrow to the taker. The owner may cancel the order.

The model covers the pallet's storage, namely the `NextOrderId` counter and
the `Orders` map, plus its events, its errors and its three dispatchables.
It also covers the contract of the reservable multi-currency ledger those
dispatchables call.

Files:

- `wrappers.dfy`: `Option` and `Result`.
- `sums.dfy`: finite sums over a set of keys. Issuance and escrow totals are
  stated with them.
- `ledger.dfy`: the ledger. It maps `(currency, account)` to a free and a
  reserved balance. It provides `Reserve`, `Transfer` and
  `RepatriateReserved`, and proves that each one conserves the total
  issuance of every currency.
- `exchange.dfy`: the `Order`, `Event`, `Error` and state types. Each
  dispatchable appears twice:
  - a function from the old state to the new state and the result
    (`Submit`, `Take`, `Cancel`);
  - a method of the class `Pallet`, which updates its fields in place and
    undoes the writes that `try_mutate`, `try_mutate_exists` and
    `with_transaction_result` discard.

  Each method is proved to end in the state its function computes.
- `properties.dfy`: the invariant and the properties proved about it. The
  invariant has three parts:
  - every stored id is below the counter;
  - every account's reserved balance covers the escrow of its open orders;
  - the ids in `OrderCreated` events are strictly increasing.

  The file also proves conservation of issuance, exactly-once resolution,
  and the two places where escrow is left reserved with no order behind it.
- `scenarios.dfy`: the unit tests' scenarios, written as client code of the
  `Pallet` class.

`OrderId` is a natural number no larger than `MAX_ORDER_ID = 2^32 - 1`,
because the test runtime uses `u32`. `checked_add` fails exactly at that
value. Balances, currency ids and account ids are unbounded naturals.

### Two behaviours that look like defects

The model follows the code in both:

- `take_order` removes the order before settling it and discards the
  settlement's error with `.unwrap_or(())` (`pallets/exchange/src/lib.rs:171`).
  So a take the taker cannot pay for returns `Ok`, deletes the order and
  emits nothing. The ledger is rolled back, so the owner's base amount stays
  reserved with no order left to release it. This is proved as
  `ExchangeProperties.FailedTakeOrphansEscrow`.
- `cancel_order` makes no ledger call (`pallets/exchange/src/lib.rs:184-191`).
  The owner's escrow stays reserved after a successful cancel. This is
  proved as `ExchangeProperties.CancelOrphansEscrow`.

Under the invariant the escrow release in `take_order` can never come up
short (`ExchangeProperties.SettleFailsOnlyWhenTakerCannotPay`). So the
`InsufficientBalance` check at `lib.rs:166` is reachable only when something
outside this pallet lowers a reserved balance.

## Model

| member | source | states |
|---|---|---|
| `Ledger.Reserve` | pallets/exchange/src/lib.rs:132 | Reserving succeeds iff the free balance covers the amount. On success it moves exactly the amount from free to reserved for that account and currency, and touches no other account. |
| `Ledger.Transfer` | pallets/exchange/src/lib.rs:153-158 | Transfer succeeds iff the sender's free balance covers the amount. The sender's free balance drops by the amount and the receiver's rises by it (nothing changes when they are the same account). No reserved balance and no third account changes. |
| `Ledger.RepatriateReserved` | pallets/exchange/src/lib.rs:159-165 | Moves as much of the amount as the slashed account has reserved to the beneficiary's free balance: a non-zero residual leaves that reserved balance at zero. It returns the unmoved residual, which is zero iff the reserved balance covered the amount. |
| `Ledger.ReserveConservesIssuance` | pallets/exchange/src/lib.rs:132 | A successful reserve keeps the total issuance of every currency. |
| `Ledger.TransferConservesIssuance` | pallets/exchange/src/lib.rs:153-158 | A successful transfer keeps the total issuance of every currency. |
| `Ledger.RepatriateConservesIssuance` | pallets/exchange/src/lib.rs:159-165 | Repatriation keeps the total issuance of every currency, whatever the residual. |
| `Exchange.Submit` | pallets/exchange/src/lib.rs:106-140 | Succeeds iff the counter is below the maximum and the caller's free base balance covers `base_amount`. Fails with `OrderIdOverflow` iff the counter is at the maximum, and with the ledger's error iff the counter is below it and the free base balance is short. Any failure leaves the state unchanged. On success: the order is stored under the old counter value with the caller as owner; the counter advances by one; exactly `base_amount` moves from the caller's free to reserved balance; `OrderCreated(id, order)` is appended. |
| `Exchange.Settle` | pallets/exchange/src/lib.rs:152-170 | The settlement succeeds iff the taker can pay `target_amount` and the owner has `base_amount` reserved; it fails with the ledger's error iff the taker cannot pay. On success, for any accounts and currencies (self-take and single-currency orders included): the taker's free target balance drops by `target_amount`, the owner's rises by it, the taker's free base balance rises by `base_amount`, and the only reserved balance that changes is the owner's base reservation, which drops by `base_amount`. |
| `Exchange.Take` | pallets/exchange/src/lib.rs:143-175 | Fails with `InvalidOrderId` iff the id is not stored, and then changes nothing. Returns `Ok` iff the id is stored, and then removes the order whether or not settlement succeeds. It commits the settled balances plus `OrderTaken` on success, and rolls the ledger back with no event on failure. |
| `Exchange.Cancel` | pallets/exchange/src/lib.rs:178-193 | `InvalidOrderId` iff the id is absent. `NotOwner` iff it is present and the caller is not its owner. `Ok` iff it is present and the caller owns it. Both errors leave the state unchanged. On success the order is removed, `OrderCancelled(id)` is appended, and the balances are untouched. |
| `Exchange.Pallet.constructor` | pallets/exchange/src/lib.rs:69-75 | Storage starts with no counter, no orders and no events. |
| `Exchange.Pallet.SubmitOrder` | pallets/exchange/src/lib.rs:115-138 | Editing the counter on a copy, and writing it back only after the reservation succeeds, ends in exactly the state and result of `Submit`. |
| `Exchange.Pallet.SettleOrder` | pallets/exchange/src/lib.rs:152-170 | The transaction commits the transfer, the repatriation and the event only on success. On failure it restores the balances and events it had changed, including a transfer already made. Counter and orders are never touched. |
| `Exchange.Pallet.TakeOrder` | pallets/exchange/src/lib.rs:149-173 | Removing the entry after the transaction, and ignoring the transaction's result, ends in exactly the state and result of `Take`. |
| `Exchange.Pallet.CancelOrder` | pallets/exchange/src/lib.rs:184-191 | Checking existence before ownership and writing only on success ends in exactly the state and result of `Cancel`. |
| `ExchangeProperties.GenesisInvariant` | pallets/exchange/src/lib.rs:69-75 | The empty storage over any endowment satisfies the invariant. |
| `ExchangeProperties.SubmitPreservesInvariant` | pallets/exchange/src/lib.rs:115-138 | After submit, every stored id is still below the counter, every reservation still covers its owner's open escrow, and the created ids are still increasing. |
| `ExchangeProperties.TakePreservesInvariant` | pallets/exchange/src/lib.rs:149-173 | Take keeps the invariant, whether settlement succeeds or fails. |
| `ExchangeProperties.CancelPreservesInvariant` | pallets/exchange/src/lib.rs:184-191 | Cancel keeps the invariant. |
| `ExchangeProperties.SubmitIssuesFreshId` | pallets/exchange/src/lib.rs:116-134 | A successful submit issues the counter's value. That value is below the maximum and held by no stored order, so the insert overwrites nothing: the map grows by one and every earlier order stays as it was. |
| `ExchangeProperties.SettleFailsOnlyWhenTakerCannotPay` | pallets/exchange/src/lib.rs:153-166 | Under the invariant, settling an open order succeeds iff the taker's free target balance covers `target_amount`. The repatriation residual is always zero. |
| `ExchangeProperties.TakeSettles` | pallets/exchange/src/lib.rs:152-172 | The taker is not the owner, the two currencies differ, and the taker can pay. Then the order is removed and `OrderTaken` is appended. The taker's free target balance drops by `target_amount` and the owner's rises by it. The owner's reserved base balance drops by `base_amount` and the taker's free base balance rises by it. |
| `ExchangeProperties.FailedTakeOrphansEscrow` | pallets/exchange/src/lib.rs:149-173 | When the taker cannot pay, take still returns `Ok` and removes the order, with balances and events unchanged. The owner's reserved balance then exceeds the escrow of their remaining orders by at least `base_amount`. |
| `ExchangeProperties.CancelOrphansEscrow` | pallets/exchange/src/lib.rs:184-191 | A successful cancel leaves the balances unchanged. The owner's reserved balance then exceeds the escrow of their remaining orders by at least `base_amount`. |
| `ExchangeProperties.RunPreservesInvariant` | pallets/exchange/src/lib.rs:104-194 | Any sequence of calls keeps the invariant. |
| `ExchangeProperties.ReachableInvariant` | pallets/exchange/src/lib.rs:115-130 | From genesis, after any calls, the ids of the `OrderCreated` events are strictly increasing, so no id is issued twice. |
| `ExchangeProperties.ApplyCounter` | pallets/exchange/src/lib.rs:115-130 | No call lowers the counter. It changes only on a successful submit, and then by exactly one. |
| `ExchangeProperties.ResolvedStaysResolved` | pallets/exchange/src/lib.rs:149-150 | An id below the counter that is not stored stays absent, and below the counter, after any sequence of calls. |
| `ExchangeProperties.ResolvedOnce` | pallets/exchange/src/lib.rs:149-191 | After a successful take or cancel of an order, and any later calls, taking or cancelling that id fails with `InvalidOrderId`. |
| `ExchangeProperties.ApplyConservesIssuance` | pallets/exchange/src/lib.rs:132-166 | No call changes the total issuance of any currency. |
| `ExchangeProperties.RunConservesIssuance` | pallets/exchange/src/lib.rs:104-194 | No sequence of calls changes the total issuance of any currency. |
| `ExchangeProperties.ApplyNeverRewritesOrders` | pallets/exchange/src/lib.rs:134 | Under the invariant, no call changes an order that stays stored. Orders are only added or removed. |

## Left out

- Origin checking (`ensure_signed`): the caller is an already-authenticated account id.
- Weights, SCALE codec attributes, storage hashers, getters, metadata, hooks and the dispatch plumbing the macros generate.
- The currency module's internals: existential deposits, dust removal, account creation and deletion. The ledger is modelled only by the contract the pallet relies on.
- Ledger.RepatriateReserved: never fails with an error. In the source the `?` at `lib.rs:165` would pass such an error on, which the transaction would roll back and `.unwrap_or(())` would swallow. That is the same outcome as a non-zero residual, apart from the error value that is discarded.
- Balance width: balances are unbounded naturals, so the ledger's `u128` overflow checks are not modelled.
- The currency module's own `Transferred` event: the event log holds only this pallet's three events.
- The test runtime's wiring (`construct_runtime!`, the configuration of the system, balances, tokens and currencies pallets). Only its constants are used, in the scenarios.

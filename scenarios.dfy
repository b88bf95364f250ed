/** The pallet's unit-test scenarios, written against the `Pallet` class as
    client code: each assertion is proved from the methods' postconditions,
    which give the new storage through `Submit`, `Take` and `Cancel`. */
module ExchangeScenarios {
  import opened Wrappers
  import opened Ledger
  import opened Exchange

  const ALICE: AccountId := 1
  const BOB: AccountId := 2
  const DOT: CurrencyId := 1
  const BTC: CurrencyId := 3
  const ENDOWED_AMOUNT: Balance := 1_000_000_000_000_000

  /** Both accounts start with `ENDOWED_AMOUNT` free in both currencies. */
  function Endowment(): Balances {
    map[(DOT, ALICE) := AccountData(ENDOWED_AMOUNT, 0), (DOT, BOB) := AccountData(ENDOWED_AMOUNT, 0),
        (BTC, ALICE) := AccountData(ENDOWED_AMOUNT, 0), (BTC, BOB) := AccountData(ENDOWED_AMOUNT, 0)]
  }

  const ALICE_ORDER := Order(DOT, 10, BTC, 1, ALICE)

  method SubmitOrderScenario() {
    var p := new Pallet(Endowment());
    var r := p.SubmitOrder(ALICE, DOT, 10, BTC, 1);
    assert r == Ok(());
    assert FreeBalance(p.balances, DOT, ALICE) == ENDOWED_AMOUNT - 10;
    assert FreeBalance(p.balances, BTC, ALICE) == ENDOWED_AMOUNT;
    assert p.events == [OrderCreated(0, ALICE_ORDER)];
  }

  method TakeOrderScenario() {
    var p := new Pallet(Endowment());
    var r := p.TakeOrder(BOB, 0);
    assert r == Err(Module(InvalidOrderId)) && p.Snapshot() == Genesis(Endowment());

    r := p.SubmitOrder(ALICE, DOT, 10, BTC, 1);
    assert FreeBalance(p.balances, DOT, ALICE) == ENDOWED_AMOUNT - 10;
    assert FreeBalance(p.balances, BTC, ALICE) == ENDOWED_AMOUNT;

    r := p.TakeOrder(BOB, 0);
    assert r == Ok(());
    assert FreeBalance(p.balances, DOT, ALICE) == ENDOWED_AMOUNT - 10;
    assert FreeBalance(p.balances, BTC, ALICE) == ENDOWED_AMOUNT + 1;
    assert FreeBalance(p.balances, DOT, BOB) == ENDOWED_AMOUNT + 10;
    assert FreeBalance(p.balances, BTC, BOB) == ENDOWED_AMOUNT - 1;
    assert ReservedBalance(p.balances, DOT, ALICE) == 0;
    assert p.events == [OrderCreated(0, ALICE_ORDER), OrderTaken(BOB, 0, ALICE_ORDER)];

    r := p.TakeOrder(BOB, 0);
    assert r == Err(Module(InvalidOrderId));
  }

  method CancelOrderScenario() {
    var p := new Pallet(Endowment());
    var r := p.CancelOrder(ALICE, 0);
    assert r == Err(Module(InvalidOrderId)) && p.Snapshot() == Genesis(Endowment());

    r := p.SubmitOrder(ALICE, DOT, 10, BTC, 1);
    r := p.CancelOrder(BOB, 0);
    assert r == Err(Module(NotOwner));
    assert p.orders == map[0 := ALICE_ORDER];

    r := p.CancelOrder(ALICE, 0);
    assert r == Ok(());
    assert p.events == [OrderCreated(0, ALICE_ORDER), OrderCancelled(0)];
    // the escrow is not released
    assert ReservedBalance(p.balances, DOT, ALICE) == 10;
    assert FreeBalance(p.balances, DOT, ALICE) == ENDOWED_AMOUNT - 10;
  }

  /** A take that BOB cannot pay for: the order is gone, the call succeeds,
      and ALICE's escrow stays reserved. */
  method UnpaidTakeScenario() {
    var p := new Pallet(Endowment());
    var r := p.SubmitOrder(ALICE, DOT, 10, BTC, ENDOWED_AMOUNT + 1);
    r := p.TakeOrder(BOB, 0);
    assert r == Ok(());
    assert p.orders == map[];
    assert FreeBalance(p.balances, BTC, BOB) == ENDOWED_AMOUNT;
    assert ReservedBalance(p.balances, DOT, ALICE) == 10;
    assert |p.events| == 1;
  }

  /** With the counter at its maximum, a submit fails and changes nothing. */
  method OverflowScenario() {
    var p := new Pallet(Endowment());
    p.nextOrderId := Some(MAX_ORDER_ID);
    var r := p.SubmitOrder(ALICE, DOT, 10, BTC, 1);
    assert r == Err(Module(OrderIdOverflow));
    assert p.orders == map[] && p.balances == Endowment() && p.events == [];
  }
}

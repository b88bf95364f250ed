/** The reservable multi-currency ledger the exchange pallet drives
    (`MultiReservableCurrency` of orml).  Only the contract the pallet relies
    on is modelled: every (currency, account) pair holds a free and a reserved
    balance, and the three primitives the pallet calls move value between
    them.  A pair that was never written holds zero of both. */
module Ledger {
  import opened Wrappers
  import opened Sums

  type CurrencyId = nat
  type AccountId = nat
  type Balance = nat

  datatype AccountData = AccountData(free: Balance, reserved: Balance)

  type Balances = map<(CurrencyId, AccountId), AccountData>

  /** The error the ledger reports when a free balance is too small. */
  datatype LedgerError = BalanceTooLow

  function Account(b: Balances, c: CurrencyId, who: AccountId): AccountData {
    if (c, who) in b then b[(c, who)] else AccountData(0, 0)
  }

  function FreeBalance(b: Balances, c: CurrencyId, who: AccountId): Balance {
    Account(b, c, who).free
  }

  function ReservedBalance(b: Balances, c: CurrencyId, who: AccountId): Balance {
    Account(b, c, who).reserved
  }

  /** Every account other than those in `touched` is the same in `b` and `b'`. */
  ghost predicate OthersUnchanged(b: Balances, b': Balances, touched: set<(CurrencyId, AccountId)>) {
    forall c: CurrencyId, who: AccountId :: (c, who) !in touched ==> Account(b', c, who) == Account(b, c, who)
  }

  /** Lock `amount` of the free balance of `who` in currency `c`. */
  function Reserve(b: Balances, c: CurrencyId, who: AccountId, amount: Balance): (r: Result<Balances, LedgerError>)
    ensures r.Ok? <==> amount <= FreeBalance(b, c, who)
    ensures r.Ok? ==>
      && FreeBalance(r.value, c, who) == FreeBalance(b, c, who) - amount
      && ReservedBalance(r.value, c, who) == ReservedBalance(b, c, who) + amount
      && OthersUnchanged(b, r.value, {(c, who)})
  {
    var a := Account(b, c, who);
    if a.free < amount then Err(BalanceTooLow)
    else Ok(b[(c, who) := AccountData(a.free - amount, a.reserved + amount)])
  }

  /** Move `amount` of free balance in currency `c` from `from` to `to`. */
  function Transfer(b: Balances, c: CurrencyId, from: AccountId, to: AccountId, amount: Balance)
    : (r: Result<Balances, LedgerError>)
    ensures r.Ok? <==> amount <= FreeBalance(b, c, from)
    ensures r.Ok? && from != to ==>
      && FreeBalance(r.value, c, from) == FreeBalance(b, c, from) - amount
      && FreeBalance(r.value, c, to) == FreeBalance(b, c, to) + amount
    ensures r.Ok? && from == to ==> Account(r.value, c, from) == Account(b, c, from)
    ensures r.Ok? ==> OthersUnchanged(b, r.value, {(c, from), (c, to)})
    ensures r.Ok? ==> forall c': CurrencyId, who: AccountId :: ReservedBalance(r.value, c', who) == ReservedBalance(b, c', who)
  {
    var a := Account(b, c, from);
    if a.free < amount then Err(BalanceTooLow)
    else
      var b1 := b[(c, from) := AccountData(a.free - amount, a.reserved)];
      var t := Account(b1, c, to);
      Ok(b1[(c, to) := AccountData(t.free + amount, t.reserved)])
  }

  /** Move up to `amount` of the reserved balance of `slashed` in currency
      `c` to the free balance of `beneficiary`; as much as the reserved
      balance allows is moved, and what could not be moved is returned. */
  function RepatriateReserved(b: Balances, c: CurrencyId, slashed: AccountId, beneficiary: AccountId, amount: Balance)
    : (r: (Balances, Balance))
    ensures r.1 <= amount
    ensures r.1 == 0 <==> amount <= ReservedBalance(b, c, slashed)
    ensures r.1 != 0 ==> ReservedBalance(r.0, c, slashed) == 0
    ensures ReservedBalance(r.0, c, slashed) + (amount - r.1) == ReservedBalance(b, c, slashed)
    ensures slashed != beneficiary ==>
      && FreeBalance(r.0, c, beneficiary) == FreeBalance(b, c, beneficiary) + (amount - r.1)
      && FreeBalance(r.0, c, slashed) == FreeBalance(b, c, slashed)
      && ReservedBalance(r.0, c, beneficiary) == ReservedBalance(b, c, beneficiary)
    ensures slashed == beneficiary ==>
      FreeBalance(r.0, c, slashed) == FreeBalance(b, c, slashed) + (amount - r.1)
    ensures OthersUnchanged(b, r.0, {(c, slashed), (c, beneficiary)})
  {
    var s := Account(b, c, slashed);
    var moved := if s.reserved < amount then s.reserved else amount;
    var b1 := b[(c, slashed) := AccountData(s.free, s.reserved - moved)];
    var t := Account(b1, c, beneficiary);
    (b1[(c, beneficiary) := AccountData(t.free + moved, t.reserved)], amount - moved)
  }

  /** Free plus reserved balance held by the account keyed `k`, counted
      only when it is an account in currency `c`. */
  function Holding(b: Balances, c: CurrencyId, k: (CurrencyId, AccountId)): nat {
    if k.0 == c then Account(b, k.0, k.1).free + Account(b, k.0, k.1).reserved else 0
  }

  /** Total issuance of currency `c`: everything held in it, free or reserved. */
  ghost function Issuance(b: Balances, c: CurrencyId): nat {
    Sum(b.Keys, k => Holding(b, c, k))
  }

  /** Rewriting one account changes the issuance of its currency by the
      change of that account's total, and no other currency's issuance. */
  lemma SetAccountIssuance(b: Balances, c: CurrencyId, who: AccountId, d: AccountData, c': CurrencyId)
    ensures Issuance(b[(c, who) := d], c') + (if c == c' then Account(b, c, who).free + Account(b, c, who).reserved else 0)
         == Issuance(b, c') + (if c == c' then d.free + d.reserved else 0)
  {
    var b' := b[(c, who) := d];
    var k := (c, who);
    var f := (j: (CurrencyId, AccountId)) => Holding(b, c', j);
    var g := (j: (CurrencyId, AccountId)) => Holding(b', c', j);
    assert b'.Keys == b.Keys + {k};
    if k !in b {
      SumZeroKey(b.Keys, f, k);
    } else {
      assert b.Keys + {k} == b.Keys;
    }
    SumPointUpdate(b.Keys, f, g, k);
  }

  /** Reserving keeps every currency's issuance. */
  lemma ReserveConservesIssuance(b: Balances, c: CurrencyId, who: AccountId, amount: Balance, c': CurrencyId)
    requires Reserve(b, c, who, amount).Ok?
    ensures Issuance(Reserve(b, c, who, amount).value, c') == Issuance(b, c')
  {
    var a := Account(b, c, who);
    SetAccountIssuance(b, c, who, AccountData(a.free - amount, a.reserved + amount), c');
  }

  /** Transferring keeps every currency's issuance. */
  lemma TransferConservesIssuance(b: Balances, c: CurrencyId, from: AccountId, to: AccountId, amount: Balance, c': CurrencyId)
    requires Transfer(b, c, from, to, amount).Ok?
    ensures Issuance(Transfer(b, c, from, to, amount).value, c') == Issuance(b, c')
  {
    var a := Account(b, c, from);
    var b1 := b[(c, from) := AccountData(a.free - amount, a.reserved)];
    var t := Account(b1, c, to);
    SetAccountIssuance(b, c, from, AccountData(a.free - amount, a.reserved), c');
    SetAccountIssuance(b1, c, to, AccountData(t.free + amount, t.reserved), c');
  }

  /** Repatriating keeps every currency's issuance, whatever the residual. */
  lemma RepatriateConservesIssuance(b: Balances, c: CurrencyId, slashed: AccountId, beneficiary: AccountId, amount: Balance, c': CurrencyId)
    ensures Issuance(RepatriateReserved(b, c, slashed, beneficiary, amount).0, c') == Issuance(b, c')
  {
    var s := Account(b, c, slashed);
    var moved := if s.reserved < amount then s.reserved else amount;
    var b1 := b[(c, slashed) := AccountData(s.free, s.reserved - moved)];
    var t := Account(b1, c, beneficiary);
    SetAccountIssuance(b, c, slashed, AccountData(s.free, s.reserved - moved), c');
    SetAccountIssuance(b1, c, beneficiary, AccountData(t.free + moved, t.reserved), c');
  }
}

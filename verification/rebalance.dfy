/** The orchestrator `newRebalancingTx`: checks that the closing accounts can cover
    the recipients, drains the closing accounts one after another through the
    waterfall allocator, books every leftover surplus into a fee pool, charges a
    flat fee per transfer and takes it off the transfer list. */
module Rebalance {
  import opened Results
  import opened Accounts
  import opened Waterfall
  import opened FeeReducer

  /** The two ways the source throws "not enough funds for rebalance", and the
      TypeError of `reduce` over an empty account list. */
  datatype Error = EmptyReduce | NotEnoughFunds | FeeExceedsPool

  /** The state `newRebalancingTx` threads through its loop: `transfers`,
      `remainingRecipientAccounts` and `avaliableFeeQuote`. */
  datatype Plan = Plan(transfers: seq<Transfer>, remaining: seq<RecipientAccount>, pool: nat)

  datatype Rebalancing = Rebalancing(transfers: seq<Transfer>, operationalFee: nat)

  /** One closing account's turn: the body of the `while (true)` loop. When no
      recipient is left, the leftover surplus becomes a `null`-destination entry and
      joins the pool; when the closing account is drained, the loop breaks. A
      third outcome, going round again, cannot happen. */
  function Settle(c: ClosingAccount, p: Plan): (r: Plan)
    ensures p.transfers <= r.transfers && r.pool >= p.pool
    ensures var out := CreateTransfers(c, p.remaining);
      (r.transfers == p.transfers + out.transfers + [Transfer(c.accountId, None, out.closing.amount)]
       && r.pool == p.pool + out.closing.amount && r.remaining == [])
      <==> |out.remaining| == 0
    ensures var out := CreateTransfers(c, p.remaining);
      |out.remaining| > 0 ==> r == Plan(p.transfers + out.transfers, out.remaining, p.pool)
    ensures |p.remaining| == 0 ==> r.remaining == [] && r.transfers == p.transfers + [Transfer(c.accountId, None, c.amount)]
  {
    var out := CreateTransfers(c, p.remaining);
    var transfers := p.transfers + out.transfers;
    if |out.remaining| == 0 then
      Plan(transfers + [Transfer(out.closing.accountId, None, out.closing.amount)], [], p.pool + out.closing.amount)
    else if out.closing.amount == 0 then
      Plan(transfers, out.remaining, p.pool)
    else
      assert false; p
  }

  /** The `for` loop over the closing accounts, in order. */
  function SettleAll(cs: seq<ClosingAccount>, p: Plan): (r: Plan)
    ensures p.transfers <= r.transfers
    ensures r.pool >= p.pool
    ensures |p.remaining| == 0 ==> r.remaining == []
    decreases |cs|
  {
    if |cs| == 0 then p
    else
      var q := Settle(cs[0], p);
      assert p.transfers <= q.transfers && q.pool >= p.pool;
      SettleAll(cs[1..], q)
  }

  /** The plan before any fee is charged. */
  function Planned(cs: seq<ClosingAccount>, rs: seq<RecipientAccount>): (r: Plan)
    ensures TransferSum(r.transfers) == AmountSum(cs)
    ensures r.pool == LeftoverSum(r.transfers)
    ensures |r.transfers| >= |cs|
  {
    SettleAllKeepsBooks(cs, Plan([], rs, 0), rs);
    SettleAll(cs, Plan([], rs, 0))
  }

  /** `newRebalancingTx(closingAccounts, recipientAccounts)`. */
  function NewRebalancingTx(cs: seq<ClosingAccount>, rs: seq<RecipientAccount>): (r: Result<Rebalancing, Error>)
    ensures r == Failure(EmptyReduce) <==> |rs| == 0 || |cs| == 0
    ensures r == Failure(NotEnoughFunds) <==> |rs| > 0 && |cs| > 0 && AmountSum(cs) < CreditSum(rs)
    ensures r.Success? ==> forall j :: 0 <= j < |r.value.transfers| ==> r.value.transfers[j].amount > 0
    ensures r.Success? ==> r.value.operationalFee == 10 * |Planned(cs, rs).transfers| <= Planned(cs, rs).pool
    ensures r == Failure(FeeExceedsPool) <==>
      |rs| > 0 && |cs| > 0 && CreditSum(rs) <= AmountSum(cs) && 10 * |Planned(cs, rs).transfers| > Planned(cs, rs).pool
    ensures r.Success? ==> r.value.transfers == MinorFee(r.value.operationalFee, Planned(cs, rs).transfers)
  {
    match CalculateTotalCredit(rs)
    case None => Failure(EmptyReduce)
    case Some(totalCredit) =>
      match CalculateTotalAmount(cs)
      case None => Failure(EmptyReduce)
      case Some(totalAmount) =>
        if totalAmount - totalCredit < 0 then Failure(NotEnoughFunds)
        else
          var plan := Planned(cs, rs);
          var fee := |plan.transfers| * 10;
          if fee > plan.pool then Failure(FeeExceedsPool)
          else Success(Rebalancing(MinorFee(fee, plan.transfers), fee))
  }

  /** Leftover entries come after every payment. */
  ghost predicate LeftoversLast(ts: seq<Transfer>)
  {
    forall i, j :: 0 <= i < j < |ts| && !IsPayment(ts[i]) ==> !IsPayment(ts[j])
  }

  /** The bookkeeping the loop keeps against the original recipients `rs`: what
      was paid plus what is still owed is what was owed, per account and in
      total; the pool is exactly the leftover entries; leftovers come last, and
      there are none while some recipient is still owed. */
  ghost predicate Books(p: Plan, rs: seq<RecipientAccount>)
  {
    && PaidSum(p.transfers) + CreditSum(p.remaining) == CreditSum(rs)
    && (forall id :: PaidTo(p.transfers, id) + OwedTo(p.remaining, id) == OwedTo(rs, id))
    && p.pool == LeftoverSum(p.transfers)
    && LeftoversLast(p.transfers)
    && (|p.remaining| > 0 ==> forall i :: 0 <= i < |p.transfers| ==> IsPayment(p.transfers[i]))
  }

  /** Appending one allocator call's transfers and taking over its remaining
      recipients keeps the books. */
  lemma PayingKeepsBooks(c: ClosingAccount, p: Plan, rs: seq<RecipientAccount>)
    requires Books(p, rs)
    ensures var out := CreateTransfers(c, p.remaining);
      && Books(Plan(p.transfers + out.transfers, out.remaining, p.pool), rs)
      && TransferSum(p.transfers + out.transfers) + out.closing.amount == TransferSum(p.transfers) + c.amount
      && (|p.remaining| == 0 ==> out.transfers == [])
  {
    var out := CreateTransfers(c, p.remaining);
    var ts := p.transfers + out.transfers;
    assert forall i :: 0 <= i < |out.transfers| ==> IsPayment(out.transfers[i]);
    PaymentsHaveNoLeftover(out.transfers);
    LedgerConcat(p.transfers, out.transfers);
    if |p.remaining| == 0 {
      assert |out.transfers| == 0;
      assert ts == p.transfers;
    }
    forall id
      ensures PaidTo(ts, id) + OwedTo(out.remaining, id) == OwedTo(rs, id)
    {
      assert PaidTo(ts, id) == PaidTo(p.transfers, id) + PaidTo(out.transfers, id);
    }
  }

  /** Booking a leftover entry into the pool once nobody is owed keeps the books. */
  lemma BookingLeftoverKeepsBooks(p: Plan, rs: seq<RecipientAccount>, last: Transfer)
    requires Books(p, rs) && |p.remaining| == 0 && !IsPayment(last)
    ensures Books(Plan(p.transfers + [last], [], p.pool + last.amount), rs)
    ensures TransferSum(p.transfers + [last]) == TransferSum(p.transfers) + last.amount
  {
    LeftoverPaysNobody(p.transfers, last);
    LeftoverAfterLeftovers(p.transfers, last);
  }

  /** Appending a leftover entry grows the total and the leftovers by its amount
      and leaves every payment total as it was. */
  lemma LeftoverPaysNobody(ts: seq<Transfer>, last: Transfer)
    requires !IsPayment(last)
    ensures TransferSum(ts + [last]) == TransferSum(ts) + last.amount
    ensures LeftoverSum(ts + [last]) == LeftoverSum(ts) + last.amount
    ensures PaidSum(ts + [last]) == PaidSum(ts)
    ensures forall id :: PaidTo(ts + [last], id) == PaidTo(ts, id)
  {
    TransferSumConcat(ts, [last]);
    AmountToConcat(ts, [last], None);
    LeftoversPayNobody([last], "");
    forall id
      ensures PaidTo(ts + [last], id) == PaidTo(ts, id)
    {
      AmountToConcat(ts, [last], Some(id));
      LeftoversPayNobody([last], id);
    }
  }

  /** A leftover entry appended to a list with leftovers last keeps them last. */
  lemma LeftoverAfterLeftovers(ts: seq<Transfer>, last: Transfer)
    requires LeftoversLast(ts) && !IsPayment(last)
    ensures LeftoversLast(ts + [last])
  {
    assert forall i :: 0 <= i < |ts| ==> (ts + [last])[i] == ts[i];
  }

  /** One closing account's turn keeps the books, moves its whole surplus into
      the transfer list and emits at least one entry. */
  lemma SettleKeepsBooks(c: ClosingAccount, p: Plan, rs: seq<RecipientAccount>)
    requires Books(p, rs)
    ensures Books(Settle(c, p), rs)
    ensures TransferSum(Settle(c, p).transfers) == TransferSum(p.transfers) + c.amount
    ensures |Settle(c, p).transfers| > |p.transfers|
  {
    var out := CreateTransfers(c, p.remaining);
    PayingKeepsBooks(c, p, rs);
    var p' := Plan(p.transfers + out.transfers, out.remaining, p.pool);
    if |out.remaining| == 0 {
      BookingLeftoverKeepsBooks(p', rs, Transfer(out.closing.accountId, None, out.closing.amount));
    }
  }

  lemma {:induction false} SettleAllKeepsBooks(cs: seq<ClosingAccount>, p: Plan, rs: seq<RecipientAccount>)
    requires Books(p, rs)
    ensures Books(SettleAll(cs, p), rs)
    ensures TransferSum(SettleAll(cs, p).transfers) == TransferSum(p.transfers) + AmountSum(cs)
    ensures |SettleAll(cs, p).transfers| >= |p.transfers| + |cs|
    decreases |cs|
  {
    if |cs| > 0 {
      SettleKeepsBooks(cs[0], p, rs);
      SettleAllKeepsBooks(cs[1..], Settle(cs[0], p), rs);
    }
  }

  /** Facts about the plan the fee is computed from. */
  lemma PlannedBooks(cs: seq<ClosingAccount>, rs: seq<RecipientAccount>)
    ensures Books(Planned(cs, rs), rs)
    ensures TransferSum(Planned(cs, rs).transfers) == AmountSum(cs)
    ensures |Planned(cs, rs).transfers| >= |cs|
  {
    SettleAllKeepsBooks(cs, Plan([], rs, 0), rs);
  }

  /** The number of payments before the first leftover entry. */
  function PaymentCount(ts: seq<Transfer>): (k: nat)
    ensures k <= |ts|
    ensures forall i :: 0 <= i < k ==> IsPayment(ts[i])
    ensures k < |ts| ==> !IsPayment(ts[k])
  {
    if |ts| == 0 || !IsPayment(ts[0]) then 0 else 1 + PaymentCount(ts[1..])
  }

  /** With leftovers last, everything after the leading payments is a leftover. */
  lemma LeftoversFollowPayments(ts: seq<Transfer>)
    requires LeftoversLast(ts)
    ensures forall i :: PaymentCount(ts) <= i < |ts| ==> !IsPayment(ts[i])
  {
  }

  /** Once leftovers come last and the pool covers the fee, the fee pass leaves
      every payment as it was, so each recipient is paid exactly what it was paid
      before the fee. */
  lemma {:induction false} FeeSparesPayments(fee: nat, ts: seq<Transfer>)
    requires LeftoversLast(ts) && fee <= LeftoverSum(ts)
    ensures forall j :: 0 <= j < |ts| && IsPayment(ts[j]) ==> FeeCharged(fee, ts)[j] == ts[j]
    ensures forall id :: PaidTo(MinorFee(fee, ts), id) == PaidTo(ts, id)
  {
    var charged := FeeCharged(fee, ts);
    ChargedPaysAsBefore(fee, ts);
    DropZeroKeepsSums(charged);
    assert MinorFee(fee, ts) == DropZero(charged);
  }

  /** The fee pass itself, before zero entries are dropped, spares every payment. */
  lemma ChargedPaysAsBefore(fee: nat, ts: seq<Transfer>)
    requires LeftoversLast(ts) && fee <= LeftoverSum(ts)
    ensures forall j :: 0 <= j < |ts| && IsPayment(ts[j]) ==> FeeCharged(fee, ts)[j] == ts[j]
    ensures forall id :: PaidTo(FeeCharged(fee, ts), id) == PaidTo(ts, id)
  {
    var k := PaymentCount(ts);
    var charged := FeeCharged(fee, ts);
    PaymentsComeThrough(fee, ts);
    forall id
      ensures PaidTo(charged, id) == PaidTo(ts, id)
    {
      PaidBeforeLeftovers(ts, k, id);
      PaidBeforeLeftovers(charged, k, id);
    }
  }

  /** When only leftovers follow position `k`, everything paid to `id` is paid
      within the first `k` entries. */
  lemma PaidBeforeLeftovers(ts: seq<Transfer>, k: nat, id: string)
    requires k <= |ts| && forall j :: k <= j < |ts| ==> !IsPayment(ts[j])
    ensures PaidTo(ts, id) == PaidTo(ts[..k], id)
  {
    assert ts == ts[..k] + ts[k..];
    AmountToConcat(ts[..k], ts[k..], Some(id));
    LeftoversPayNobody(ts[k..], id);
  }

  /** The leading payments come through the fee pass unchanged, and the entries
      after them are leftovers before and after the pass. */
  lemma PaymentsComeThrough(fee: nat, ts: seq<Transfer>)
    requires LeftoversLast(ts) && fee <= LeftoverSum(ts)
    ensures var k := PaymentCount(ts);
      && FeeCharged(fee, ts)[..k] == ts[..k]
      && (forall j :: 0 <= j < |ts| && IsPayment(ts[j]) ==> FeeCharged(fee, ts)[j] == ts[j])
      && (forall j :: k <= j < |ts| ==> !IsPayment(ts[j]) && !IsPayment(FeeCharged(fee, ts)[j]))
  {
    var k := PaymentCount(ts);
    var charged := FeeCharged(fee, ts);
    LeftoversCoverFee(fee, ts);
    FeeSparesPrefix(fee, ts, k);
    LeftoversFollowPayments(ts);
    FeeChargedKeepsRoutes(fee, ts);
    assert charged[..k] == ts[..k];
  }

  /** The leftovers behind the leading payments can cover a fee the pool covers. */
  lemma LeftoversCoverFee(fee: nat, ts: seq<Transfer>)
    requires LeftoversLast(ts) && fee <= LeftoverSum(ts)
    ensures fee <= TransferSum(ts[PaymentCount(ts)..])
  {
    var k := PaymentCount(ts);
    LeftoversFollowPayments(ts);
    assert ts == ts[..k] + ts[k..];
    PaymentsHaveNoLeftover(ts[..k]);
    AmountToConcat(ts[..k], ts[k..], None);
    LeftoversPayNobody(ts[k..], "");
  }

  /** After the sufficiency check passes, the pool holds exactly the surplus of
      the closing accounts over the recipients' credit. */
  lemma PoolIsSurplus(cs: seq<ClosingAccount>, rs: seq<RecipientAccount>)
    requires CreditSum(rs) <= AmountSum(cs)
    ensures Planned(cs, rs).pool == AmountSum(cs) - CreditSum(rs)
  {
    var p := Planned(cs, rs);
    PlannedBooks(cs, rs);
    if |p.remaining| > 0 {
      PaymentsHaveNoLeftover(p.transfers);
      assert CreditSum(p.remaining) == 0 by {
        assert PaidSum(p.transfers) == AmountSum(cs);
      }
    }
  }

  /** A successful run leaves no recipient owed: were one still owed, no leftover
      would have been booked and the pool could not cover a fee of at least 10. */
  lemma SuccessSettlesEveryone(cs: seq<ClosingAccount>, rs: seq<RecipientAccount>)
    ensures NewRebalancingTx(cs, rs).Success? ==> Planned(cs, rs).remaining == []
  {
    PlannedBooks(cs, rs);
    OwedMeansEmptyPool(cs, rs);
  }

  /** While some recipient is still owed, no leftover has been booked. */
  lemma OwedMeansEmptyPool(cs: seq<ClosingAccount>, rs: seq<RecipientAccount>)
    ensures |Planned(cs, rs).remaining| > 0 ==> Planned(cs, rs).pool == 0
  {
    var p := Planned(cs, rs);
    PlannedBooks(cs, rs);
    if |p.remaining| > 0 {
      PaymentsHaveNoLeftover(p.transfers);
    }
  }

  /** Conservation: on success, the transfers plus the fee add up to the closing
      accounts' total surplus. */
  lemma Conservation(cs: seq<ClosingAccount>, rs: seq<RecipientAccount>)
    ensures var res := NewRebalancingTx(cs, rs);
      res.Success? ==> TransferSum(res.value.transfers) + res.value.operationalFee == AmountSum(cs)
  {
    if NewRebalancingTx(cs, rs).Success? {
      PlannedBooks(cs, rs);
      PoolIsSurplus(cs, rs);
    }
  }

  /** Full settlement: on success, every recipient account is paid exactly the
      credit it was owed, the fee having come out of leftover entries only. */
  lemma FullSettlement(cs: seq<ClosingAccount>, rs: seq<RecipientAccount>)
    ensures var res := NewRebalancingTx(cs, rs);
      res.Success? ==> forall id :: PaidTo(res.value.transfers, id) == OwedTo(rs, id)
  {
    if NewRebalancingTx(cs, rs).Success? {
      var p := Planned(cs, rs);
      PlannedBooks(cs, rs);
      SuccessSettlesEveryone(cs, rs);
      FeeSparesPayments(10 * |p.transfers|, p.transfers);
    }
  }

  /** The fee is taken from leftover entries only: every payment of the plan comes
      through the fee pass unchanged. */
  lemma FeeTouchesOnlyLeftovers(cs: seq<ClosingAccount>, rs: seq<RecipientAccount>)
    ensures var ts := Planned(cs, rs).transfers;
      NewRebalancingTx(cs, rs).Success? ==>
        forall j :: 0 <= j < |ts| && IsPayment(ts[j]) ==> FeeCharged(10 * |ts|, ts)[j] == ts[j]
  {
    if NewRebalancingTx(cs, rs).Success? {
      var p := Planned(cs, rs);
      PlannedBooks(cs, rs);
      FeeSparesPayments(10 * |p.transfers|, p.transfers);
    }
  }

  /** When the closing accounts hold exactly what the recipients are owed, the
      pool stays empty and the fee check always fails. */
  lemma EqualTotalsFail(cs: seq<ClosingAccount>, rs: seq<RecipientAccount>)
    requires |cs| > 0 && |rs| > 0 && AmountSum(cs) == CreditSum(rs)
    ensures NewRebalancingTx(cs, rs) == Failure(FeeExceedsPool)
  {
    PlannedBooks(cs, rs);
    PoolIsSurplus(cs, rs);
  }
}

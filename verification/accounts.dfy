/** The records the rebalancing planner works on, the sums it keeps track of, and
    the two aggregators `calculateTotalCredit` and `calculateTotalAmount`. */
module Accounts {
  import opened Results
  import opened Sequences

  /** An account holding surplus funds to be drained. */
  datatype ClosingAccount = ClosingAccount(accountId: string, amount: nat)

  /** An account owed `credit`. */
  datatype RecipientAccount = RecipientAccount(accountId: string, credit: nat)

  /** The triple `[from, to, amount]`. A `to` of `None` is the source's `null`
      destination: surplus left over once every recipient is settled, which
      feeds the fee pool. */
  datatype Transfer = Transfer(from: string, to: Option<string>, amount: nat)

  function AmountSum(cs: seq<ClosingAccount>): nat
  {
    if |cs| == 0 then 0 else cs[0].amount + AmountSum(cs[1..])
  }

  function CreditSum(rs: seq<RecipientAccount>): nat
  {
    if |rs| == 0 then 0 else rs[0].credit + CreditSum(rs[1..])
  }

  /** The credit owed to account `id`, over every entry carrying that id. */
  function OwedTo(rs: seq<RecipientAccount>, id: string): nat
  {
    if |rs| == 0 then 0
    else (if rs[0].accountId == id then rs[0].credit else 0) + OwedTo(rs[1..], id)
  }

  function TransferSum(ts: seq<Transfer>): nat
  {
    if |ts| == 0 then 0 else ts[0].amount + TransferSum(ts[1..])
  }

  /** The total moved to destination `to`. */
  function AmountTo(ts: seq<Transfer>, to: Option<string>): nat
  {
    if |ts| == 0 then 0
    else (if ts[0].to == to then ts[0].amount else 0) + AmountTo(ts[1..], to)
  }

  /** The total paid to recipient account `id`. */
  function PaidTo(ts: seq<Transfer>, id: string): nat
  {
    AmountTo(ts, Some(id))
  }

  /** The total on leftover (`null`-destination) entries. */
  function LeftoverSum(ts: seq<Transfer>): nat
  {
    AmountTo(ts, None)
  }

  /** The total paid to recipients of any id. */
  function PaidSum(ts: seq<Transfer>): int
  {
    TransferSum(ts) - LeftoverSum(ts)
  }

  predicate IsPayment(t: Transfer)
  {
    t.to.Some?
  }

  lemma {:induction false} TransferSumConcat(a: seq<Transfer>, b: seq<Transfer>)
    ensures TransferSum(a + b) == TransferSum(a) + TransferSum(b)
  {
    if |a| == 0 {
      assert a + b == b;
    } else {
      assert (a + b)[1..] == a[1..] + b;
      TransferSumConcat(a[1..], b);
    }
  }

  lemma {:induction false} AmountToConcat(a: seq<Transfer>, b: seq<Transfer>, to: Option<string>)
    ensures AmountTo(a + b, to) == AmountTo(a, to) + AmountTo(b, to)
  {
    if |a| == 0 {
      assert a + b == b;
    } else {
      assert (a + b)[1..] == a[1..] + b;
      AmountToConcat(a[1..], b, to);
    }
  }

  /** Every sum over transfers splits at any concatenation. */
  lemma LedgerConcat(a: seq<Transfer>, b: seq<Transfer>)
    ensures TransferSum(a + b) == TransferSum(a) + TransferSum(b)
    ensures forall to :: AmountTo(a + b, to) == AmountTo(a, to) + AmountTo(b, to)
    ensures PaidSum(a + b) == PaidSum(a) + PaidSum(b)
  {
    TransferSumConcat(a, b);
    forall to
      ensures AmountTo(a + b, to) == AmountTo(a, to) + AmountTo(b, to)
    {
      AmountToConcat(a, b, to);
    }
  }

  lemma {:induction false} CreditSumConcat(a: seq<RecipientAccount>, b: seq<RecipientAccount>)
    ensures CreditSum(a + b) == CreditSum(a) + CreditSum(b)
  {
    if |a| == 0 {
      assert a + b == b;
    } else {
      assert (a + b)[1..] == a[1..] + b;
      CreditSumConcat(a[1..], b);
    }
  }

  lemma CreditSumSnoc(a: seq<RecipientAccount>, x: RecipientAccount)
    ensures CreditSum(a + [x]) == CreditSum(a) + x.credit
  {
    CreditSumConcat(a, [x]);
  }

  /** Replacing entry `i` changes the total by the difference of the two amounts. */
  lemma {:induction false} TransferSumUpdate(ts: seq<Transfer>, i: nat, t: Transfer)
    requires i < |ts|
    ensures TransferSum(ts[i := t]) == TransferSum(ts) - ts[i].amount + t.amount
  {
    if i == 0 {
      assert ts[i := t][1..] == ts[1..];
    } else {
      assert ts[i := t][1..] == ts[1..][i - 1 := t];
      TransferSumUpdate(ts[1..], i - 1, t);
    }
  }

  /** A list of payments only carries nothing to the leftover destination. */
  lemma {:induction false} PaymentsHaveNoLeftover(ts: seq<Transfer>)
    requires forall i :: 0 <= i < |ts| ==> IsPayment(ts[i])
    ensures LeftoverSum(ts) == 0
    ensures PaidSum(ts) == TransferSum(ts)
  {
    if |ts| > 0 {
      PaymentsHaveNoLeftover(ts[1..]);
    }
  }

  /** A list of leftover entries only pays no recipient. */
  lemma {:induction false} LeftoversPayNobody(ts: seq<Transfer>, id: string)
    requires forall i :: 0 <= i < |ts| ==> !IsPayment(ts[i])
    ensures PaidTo(ts, id) == 0
    ensures LeftoverSum(ts) == TransferSum(ts)
  {
    if |ts| > 0 {
      LeftoversPayNobody(ts[1..], id);
    }
  }

  /** The per-account fields as `accounts.map(account => account.credit)` and
      `accounts.map(account => account.amount)` produce them. */
  function Credits(rs: seq<RecipientAccount>): seq<int>
  {
    seq(|rs|, i requires 0 <= i < |rs| => rs[i].credit)
  }

  function Amounts(cs: seq<ClosingAccount>): seq<int>
  {
    seq(|cs|, i requires 0 <= i < |cs| => cs[i].amount)
  }

  lemma {:induction false} CreditsAddUp(rs: seq<RecipientAccount>)
    ensures Sum(Credits(rs)) == CreditSum(rs)
  {
    if |rs| > 0 {
      assert Credits(rs)[1..] == Credits(rs[1..]);
      CreditsAddUp(rs[1..]);
    }
  }

  lemma {:induction false} AmountsAddUp(cs: seq<ClosingAccount>)
    ensures Sum(Amounts(cs)) == AmountSum(cs)
  {
    if |cs| > 0 {
      assert Amounts(cs)[1..] == Amounts(cs[1..]);
      AmountsAddUp(cs[1..]);
    }
  }

  /** `calculateTotalCredit`: the recipients' total credit; `None` is the
      TypeError `reduce` throws on an empty array. */
  function CalculateTotalCredit(rs: seq<RecipientAccount>): (r: Option<int>)
    ensures r.None? <==> |rs| == 0
    ensures r.Some? ==> r.value == CreditSum(rs)
  {
    CreditsAddUp(rs);
    ReduceAdd(Credits(rs))
  }

  /** `calculateTotalAmount`: the closing accounts' total surplus; `None` on an
      empty array, as for `calculateTotalCredit`. */
  function CalculateTotalAmount(cs: seq<ClosingAccount>): (r: Option<int>)
    ensures r.None? <==> |cs| == 0
    ensures r.Some? ==> r.value == AmountSum(cs)
  {
    AmountsAddUp(cs);
    ReduceAdd(Amounts(cs))
  }
}

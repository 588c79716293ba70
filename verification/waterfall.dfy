/** The greedy waterfall allocator `createTransfers`: one closing account pays the
    remaining recipients strictly in list order until either its surplus or the
    list runs out. */
module Waterfall {
  import opened Results
  import opened Accounts

  /** What one call hands back: the closing account with its surplus updated, the
      transfers emitted, and the recipients still owed. */
  datatype Allocation = Allocation(closing: ClosingAccount, transfers: seq<Transfer>, remaining: seq<RecipientAccount>)

  /** The loop of `createTransfers` from the recipient at the front of `rs`, with
      `surplus` playing `recentAmount`. A recipient is paid in full only when the
      surplus strictly exceeds its credit; otherwise it receives the whole surplus
      and stays at the head of the returned list with its credit reduced (to 0
      when the two were equal). */
  function Walk(from: string, surplus: nat, rs: seq<RecipientAccount>): (r: Allocation)
    ensures r.closing.accountId == from
    ensures |r.transfers| <= |rs|
    ensures forall j :: 0 <= j < |r.transfers| ==> r.transfers[j] == Transfer(from, Some(rs[j].accountId), r.transfers[j].amount)
    decreases |rs|
  {
    if |rs| == 0 then Allocation(ClosingAccount(from, surplus), [], [])
    else
      var head := rs[0];
      if surplus - head.credit > 0 then
        var rest := Walk(from, surplus - head.credit, rs[1..]);
        rest.(transfers := [Transfer(from, Some(head.accountId), head.credit)] + rest.transfers)
      else
        Allocation(ClosingAccount(from, 0), [Transfer(from, Some(head.accountId), surplus)],
                   [head.(credit := head.credit - surplus)] + rs[1..])
  }

  /** Nothing is created or lost by the walk: the closing account's surplus ends
      up either kept or transferred, and every unit of credit either is still
      owed or was paid, per account and in total. */
  lemma {:induction false} WalkConserves(from: string, surplus: nat, rs: seq<RecipientAccount>)
    ensures var r := Walk(from, surplus, rs);
      && r.closing.amount + TransferSum(r.transfers) == surplus
      && CreditSum(r.remaining) + TransferSum(r.transfers) == CreditSum(rs)
      && forall id :: OwedTo(r.remaining, id) + PaidTo(r.transfers, id) == OwedTo(rs, id)
    decreases |rs|
  {
    if |rs| > 0 {
      var head := rs[0];
      var r := Walk(from, surplus, rs);
      if surplus - head.credit > 0 {
        WalkConserves(from, surplus - head.credit, rs[1..]);
        PayingConserves(from, surplus, rs);
      } else {
        RunningOutConserves(from, surplus, rs);
      }
    }
  }

  /** The branch of the walk where the head recipient is paid in full: the walk
      conserves funds and credit when the rest of it does. */
  lemma PayingConserves(from: string, surplus: nat, rs: seq<RecipientAccount>)
    requires |rs| > 0 && surplus - rs[0].credit > 0
    requires var rest := Walk(from, surplus - rs[0].credit, rs[1..]);
      && rest.closing.amount + TransferSum(rest.transfers) == surplus - rs[0].credit
      && CreditSum(rest.remaining) + TransferSum(rest.transfers) == CreditSum(rs[1..])
      && forall id :: OwedTo(rest.remaining, id) + PaidTo(rest.transfers, id) == OwedTo(rs[1..], id)
    ensures var r := Walk(from, surplus, rs);
      && r.closing.amount + TransferSum(r.transfers) == surplus
      && CreditSum(r.remaining) + TransferSum(r.transfers) == CreditSum(rs)
      && forall id :: OwedTo(r.remaining, id) + PaidTo(r.transfers, id) == OwedTo(rs, id)
  {
    var head := rs[0];
    var r := Walk(from, surplus, rs);
    var rest := Walk(from, surplus - head.credit, rs[1..]);
    var paid := Transfer(from, Some(head.accountId), head.credit);
    assert r.transfers == [paid] + rest.transfers;
    assert r.transfers[1..] == rest.transfers;
    forall id
      ensures OwedTo(r.remaining, id) + PaidTo(r.transfers, id) == OwedTo(rs, id)
    {
      assert PaidTo(r.transfers, id) == (if head.accountId == id then head.credit else 0) + PaidTo(rest.transfers, id);
    }
  }

  /** The branch of the walk where the head recipient takes the whole surplus. */
  lemma RunningOutConserves(from: string, surplus: nat, rs: seq<RecipientAccount>)
    requires |rs| > 0 && surplus - rs[0].credit <= 0
    ensures var r := Walk(from, surplus, rs);
      && r.closing.amount + TransferSum(r.transfers) == surplus
      && CreditSum(r.remaining) + TransferSum(r.transfers) == CreditSum(rs)
      && forall id :: OwedTo(r.remaining, id) + PaidTo(r.transfers, id) == OwedTo(rs, id)
  {
    var head := rs[0];
    var r := Walk(from, surplus, rs);
    var last := Transfer(from, Some(head.accountId), surplus);
    assert r.transfers == [last];
    assert r.remaining[1..] == rs[1..];
    assert r.transfers[1..] == [];
    forall id
      ensures OwedTo(r.remaining, id) + PaidTo(r.transfers, id) == OwedTo(rs, id)
    {
      assert PaidTo(r.transfers, id) == AmountTo(r.transfers, Some(id));
      assert AmountTo(r.transfers[1..], Some(id)) == 0;
      assert PaidTo(r.transfers, id) == if head.accountId == id then surplus else 0;
      assert OwedTo(r.remaining, id) == (if head.accountId == id then head.credit - surplus else 0) + OwedTo(rs[1..], id);
    }
  }

  /** `recentAmount` when the loop reaches recipient `j`, every earlier recipient
      having been paid in full. */
  function SurplusAt(amount: int, rs: seq<RecipientAccount>, j: nat): int
    requires j <= |rs|
  {
    amount - CreditSum(rs[..j])
  }

  /** Recipient `j` was paid its whole credit, which the surplus strictly exceeded. */
  predicate PaidInFull(amount: int, rs: seq<RecipientAccount>, ts: seq<Transfer>, j: nat)
    requires j < |rs| && j < |ts|
  {
    SurplusAt(amount, rs, j) > rs[j].credit && ts[j].amount == rs[j].credit
  }

  /** The surplus outlasted every recipient: each was paid in full and the closing
      account keeps what is left. */
  predicate AllPaid(amount: int, rs: seq<RecipientAccount>, r: Allocation)
  {
    && |r.transfers| == |rs|
    && (forall j :: 0 <= j < |rs| ==> PaidInFull(amount, rs, r.transfers, j))
    && r.closing.amount == SurplusAt(amount, rs, |rs|)
    && r.remaining == []
  }

  /** The surplus ran out at recipient `i` (surplus at most its credit, equality
      included): earlier recipients were paid in full, recipient `i` got the rest,
      the closing account is drained, and `i` heads the returned list with its
      credit reduced, followed by the untouched tail. */
  predicate RunsOutAt(amount: int, rs: seq<RecipientAccount>, r: Allocation, i: nat)
  {
    && i < |rs|
    && |r.transfers| == i + 1
    && (forall j :: 0 <= j < i ==> PaidInFull(amount, rs, r.transfers, j))
    && SurplusAt(amount, rs, i) <= rs[i].credit
    && r.transfers[i].amount == SurplusAt(amount, rs, i)
    && r.closing.amount == 0
    && r.remaining == [rs[i].(credit := rs[i].credit - r.transfers[i].amount)] + rs[i + 1..]
  }

  /** The surplus before recipient `j + 1` of `rs` is the surplus before recipient `j`
      of its tail, once the head's credit is paid. */
  lemma SurplusAtTail(amount: int, rs: seq<RecipientAccount>, j: nat)
    requires j < |rs|
    ensures SurplusAt(amount, rs, j + 1) == SurplusAt(amount - rs[0].credit, rs[1..], j)
  {
    assert rs[..j + 1][1..] == rs[1..][..j];
  }

  /** Paying the head in full and then everyone else in full is paying everyone in full. */
  lemma AllPaidCons(surplus: int, rs: seq<RecipientAccount>, paid: Transfer, rest: Allocation)
    requires |rs| > 0 && surplus > rs[0].credit && paid.amount == rs[0].credit
    requires AllPaid(surplus - rs[0].credit, rs[1..], rest)
    ensures AllPaid(surplus, rs, rest.(transfers := [paid] + rest.transfers))
  {
    var ts := [paid] + rest.transfers;
    assert rs[..0] == [];
    forall j | 0 <= j < |rs|
      ensures PaidInFull(surplus, rs, ts, j)
    {
      if j > 0 {
        SurplusAtTail(surplus, rs, j - 1);
        assert PaidInFull(surplus - rs[0].credit, rs[1..], rest.transfers, j - 1);
      }
    }
    SurplusAtTail(surplus, rs, |rs| - 1);
  }

  /** Paying the head in full and then running out at recipient `i` of the tail is
      running out at recipient `i + 1`. */
  lemma RunsOutCons(surplus: int, rs: seq<RecipientAccount>, paid: Transfer, rest: Allocation, i: nat)
    requires |rs| > 0 && surplus > rs[0].credit && paid.amount == rs[0].credit
    requires RunsOutAt(surplus - rs[0].credit, rs[1..], rest, i)
    ensures RunsOutAt(surplus, rs, rest.(transfers := [paid] + rest.transfers), i + 1)
  {
    var ts := [paid] + rest.transfers;
    assert rs[..0] == [];
    forall j | 0 <= j < i + 1
      ensures PaidInFull(surplus, rs, ts, j)
    {
      if j > 0 {
        SurplusAtTail(surplus, rs, j - 1);
        assert PaidInFull(surplus - rs[0].credit, rs[1..], rest.transfers, j - 1);
      }
    }
    SurplusAtTail(surplus, rs, i);
    assert rs[1..][i + 1..] == rs[i + 2..];
  }

  /** The walk returns exactly one of the two shapes. */
  lemma {:induction false} WalkShape(from: string, surplus: nat, rs: seq<RecipientAccount>)
    ensures var r := Walk(from, surplus, rs);
      if |r.remaining| == 0 then AllPaid(surplus, rs, r)
      else |r.transfers| > 0 && RunsOutAt(surplus, rs, r, |r.transfers| - 1)
    decreases |rs|
  {
    assert rs[..0] == [];
    if |rs| > 0 && surplus - rs[0].credit > 0 {
      var paid := Transfer(from, Some(rs[0].accountId), rs[0].credit);
      var rest := Walk(from, surplus - rs[0].credit, rs[1..]);
      WalkShape(from, surplus - rs[0].credit, rs[1..]);
      if |rest.remaining| == 0 {
        AllPaidCons(surplus, rs, paid, rest);
      } else {
        RunsOutCons(surplus, rs, paid, rest, |rest.transfers| - 1);
      }
    }
  }

  /** `createTransfers(closingAccount, remainingRecipientAccounts)`. */
  function CreateTransfers(c: ClosingAccount, rs: seq<RecipientAccount>): (r: Allocation)
    ensures r.closing.accountId == c.accountId
    ensures forall j :: 0 <= j < |r.transfers| ==> j < |rs| && r.transfers[j] == Transfer(c.accountId, Some(rs[j].accountId), r.transfers[j].amount)
    ensures |r.remaining| == 0 ==> AllPaid(c.amount, rs, r)
    ensures |r.remaining| > 0 ==> |r.transfers| > 0 && RunsOutAt(c.amount, rs, r, |r.transfers| - 1)
    ensures |r.remaining| == 0 || r.closing.amount == 0
    ensures r.closing.amount + TransferSum(r.transfers) == c.amount
    ensures CreditSum(r.remaining) + TransferSum(r.transfers) == CreditSum(rs)
    ensures forall id :: OwedTo(r.remaining, id) + PaidTo(r.transfers, id) == OwedTo(rs, id)
  {
    WalkShape(c.accountId, c.amount, rs);
    WalkConserves(c.accountId, c.amount, rs);
    Walk(c.accountId, c.amount, rs)
  }

  /** The surplus outlasts the recipients exactly when it strictly exceeds their
      total credit (or there are none). */
  lemma {:induction false} AllPaidIffSurplusExceedsCredit(c: ClosingAccount, rs: seq<RecipientAccount>)
    ensures |CreateTransfers(c, rs).remaining| == 0 <==> (|rs| == 0 || c.amount > CreditSum(rs))
  {
    var r := CreateTransfers(c, rs);
    if |r.remaining| == 0 {
      if |rs| > 0 {
        var n := |rs| - 1;
        assert PaidInFull(c.amount, rs, r.transfers, n);
        assert rs[..n + 1] == rs;
        assert rs[..n + 1] == rs[..n] + [rs[n]];
        CreditSumSnoc(rs[..n], rs[n]);
      }
    } else {
      var i := |r.transfers| - 1;
      assert rs == rs[..i] + [rs[i]] + rs[i + 1..];
      CreditSumConcat(rs[..i] + [rs[i]], rs[i + 1..]);
      CreditSumSnoc(rs[..i], rs[i]);
    }
  }
}

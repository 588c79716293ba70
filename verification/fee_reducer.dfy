/** The fee reducer `minorFee`: takes the operational fee off the transfer amounts
    from the last entry backwards, then drops every entry left at zero. */
module FeeReducer {
  import opened Results
  import opened Sequences
  import opened Accounts

  /** The backward pass over the entries not yet visited, `ts[..n]`, with `fee` the
      fee still to collect. An entry smaller than the fee is zeroed and the pass
      goes on; otherwise the fee comes off that entry and the pass stops. */
  function Charge(fee: nat, ts: seq<Transfer>, n: nat): (r: seq<Transfer>)
    requires n <= |ts|
    ensures |r| == |ts|
    ensures forall j :: 0 <= j < |ts| ==> r[j].from == ts[j].from && r[j].to == ts[j].to
    ensures forall j :: n <= j < |ts| ==> r[j] == ts[j]
    decreases n
  {
    if n == 0 then ts
    else
      var index := n - 1;
      var amount := ts[index].amount;
      if fee - amount > 0 then Charge(fee - amount, ts[index := ts[index].(amount := 0)], n - 1)
      else ts[index := ts[index].(amount := amount - fee)]
  }

  /** `x` clamped to the range from 0 to `cap`. */
  function Clamp(x: int, cap: nat): nat
  {
    if x <= 0 then 0 else if x < cap then x else cap
  }

  /** What the pass leaves of entry `j`: the part of the entries from `j` on that
      the fee does not need, but never more than the entry had. */
  function ChargedAmount(fee: nat, ts: seq<Transfer>, j: nat): nat
    requires j < |ts|
  {
    Clamp(TransferSum(ts[j..]) - fee, ts[j].amount)
  }

  /** The whole list after the fee is taken, entry by entry. */
  function FeeCharged(fee: nat, ts: seq<Transfer>): seq<Transfer>
  {
    seq(|ts|, j requires 0 <= j < |ts| => ts[j].(amount := ChargedAmount(fee, ts, j)))
  }

  /** The fee changes amounts only: every entry keeps its source and destination. */
  lemma FeeChargedKeepsRoutes(fee: nat, ts: seq<Transfer>)
    ensures |FeeCharged(fee, ts)| == |ts|
    ensures forall j :: 0 <= j < |ts| ==> FeeCharged(fee, ts)[j].from == ts[j].from && FeeCharged(fee, ts)[j].to == ts[j].to
  {
  }

  predicate NonZero(t: Transfer)
  {
    t.amount != 0
  }

  /** `transfers.filter((tx) => tx[2] !== 0)`. */
  function DropZero(ts: seq<Transfer>): (r: seq<Transfer>)
    ensures forall j :: 0 <= j < |r| ==> r[j].amount > 0 && r[j] in ts
    ensures forall j :: 0 <= j < |ts| && ts[j].amount != 0 ==> ts[j] in r
  {
    Filter(ts, NonZero)
  }

  /** The entries of `ts[j..n]` add up to those of `ts[j..n - 1]` plus the last one. */
  lemma SumDropLast(ts: seq<Transfer>, j: nat, n: nat)
    requires j < n <= |ts|
    ensures TransferSum(ts[j..n]) == TransferSum(ts[j..n - 1]) + ts[n - 1].amount
  {
    assert ts[j..n] == ts[j..n - 1] + [ts[n - 1]];
    TransferSumConcat(ts[j..n - 1], [ts[n - 1]]);
  }

  /** The closed form over the visited range `ts[..n]`. */
  predicate AgreesUpTo(r: seq<Transfer>, fee: nat, ts: seq<Transfer>, n: nat)
    requires n <= |ts| && |r| == |ts|
  {
    forall j :: 0 <= j < n ==> r[j].amount == Clamp(TransferSum(ts[j..n]) - fee, ts[j].amount)
  }

  /** The branch that zeroes entry `n - 1` and carries the rest of the fee on. */
  lemma ChargeAgreesZeroing(fee: nat, ts: seq<Transfer>, n: nat, r: seq<Transfer>)
    requires 0 < n <= |ts| && fee > ts[n - 1].amount && |r| == |ts|
    requires r[n - 1].amount == 0
    requires AgreesUpTo(r, fee - ts[n - 1].amount, ts[n - 1 := ts[n - 1].(amount := 0)], n - 1)
    ensures AgreesUpTo(r, fee, ts, n)
  {
    var ts' := ts[n - 1 := ts[n - 1].(amount := 0)];
    forall j | 0 <= j < n
      ensures r[j].amount == Clamp(TransferSum(ts[j..n]) - fee, ts[j].amount)
    {
      SumDropLast(ts, j, n);
      if j < n - 1 {
        assert ts'[j..n - 1] == ts[j..n - 1];
      } else {
        assert ts[j..n - 1] == [];
      }
    }
  }

  /** The branch that takes the remaining fee off entry `n - 1` and stops. */
  lemma ChargeAgreesStopping(fee: nat, ts: seq<Transfer>, n: nat, r: seq<Transfer>)
    requires 0 < n <= |ts| && fee <= ts[n - 1].amount && |r| == |ts|
    requires r[n - 1].amount == ts[n - 1].amount - fee
    requires forall j :: 0 <= j < n - 1 ==> r[j] == ts[j]
    ensures AgreesUpTo(r, fee, ts, n)
  {
    forall j | 0 <= j < n
      ensures r[j].amount == Clamp(TransferSum(ts[j..n]) - fee, ts[j].amount)
    {
      StoppingAgreesAt(fee, ts, n, r, j);
    }
  }

  /** One entry of the visited range after the stopping branch. */
  lemma StoppingAgreesAt(fee: nat, ts: seq<Transfer>, n: nat, r: seq<Transfer>, j: nat)
    requires j < n <= |ts| && fee <= ts[n - 1].amount && |r| == |ts|
    requires r[n - 1].amount == ts[n - 1].amount - fee
    requires j < n - 1 ==> r[j] == ts[j]
    ensures r[j].amount == Clamp(TransferSum(ts[j..n]) - fee, ts[j].amount)
  {
    if j < n - 1 {
      StoppingSparesEarlier(fee, ts, n, j);
    } else {
      StoppingEntry(fee, ts, n);
    }
  }

  /** The stopping entry alone is the visited range's tail, so it pays what is
      left of the fee. */
  lemma StoppingEntry(fee: nat, ts: seq<Transfer>, n: nat)
    requires 0 < n <= |ts| && fee <= ts[n - 1].amount
    ensures Clamp(TransferSum(ts[n - 1..n]) - fee, ts[n - 1].amount) == ts[n - 1].amount - fee
  {
    SumDropLast(ts, n - 1, n);
    assert ts[n - 1..n - 1] == [];
  }

  /** Before the stopping entry, the entries from `j` on cover the whole fee, so
      the closed form keeps entry `j` as it was. */
  lemma StoppingSparesEarlier(fee: nat, ts: seq<Transfer>, n: nat, j: nat)
    requires j < n - 1 && n <= |ts| && fee <= ts[n - 1].amount
    ensures Clamp(TransferSum(ts[j..n]) - fee, ts[j].amount) == ts[j].amount
  {
    SumDropLast(ts, j, n);
    assert ts[j..n - 1][0] == ts[j];
  }

  /** The backward pass agrees, entry by entry, with the closed form over the
      visited range. */
  lemma {:induction false} ChargeAgrees(fee: nat, ts: seq<Transfer>, n: nat)
    requires n <= |ts|
    ensures AgreesUpTo(Charge(fee, ts, n), fee, ts, n)
    decreases n
  {
    if n > 0 {
      var amount := ts[n - 1].amount;
      if fee - amount > 0 {
        ChargeAgrees(fee - amount, ts[n - 1 := ts[n - 1].(amount := 0)], n - 1);
        ChargeAgreesZeroing(fee, ts, n, Charge(fee, ts, n));
      } else {
        ChargeAgreesStopping(fee, ts, n, Charge(fee, ts, n));
      }
    }
  }

  /** The entries of `ts[..n]` add up to those of `ts[..n - 1]` plus the last one. */
  lemma PrefixSumDropLast(ts: seq<Transfer>, n: nat)
    requires 0 < n <= |ts|
    ensures TransferSum(ts[..n]) == TransferSum(ts[..n - 1]) + ts[n - 1].amount
  {
    SumDropLast(ts, 0, n);
    assert ts[0..n] == ts[..n] && ts[0..n - 1] == ts[..n - 1];
  }

  /** The pass collects the whole fee when the visited entries can cover it, and
      everything they hold otherwise. */
  lemma {:induction false} ChargeCollects(fee: nat, ts: seq<Transfer>, n: nat)
    requires n <= |ts|
    ensures TransferSum(Charge(fee, ts, n)) + Clamp(TransferSum(ts[..n]), fee) == TransferSum(ts)
    decreases n
  {
    if n == 0 {
      assert ts[..0] == [];
    } else {
      var index := n - 1;
      var amount := ts[index].amount;
      PrefixSumDropLast(ts, n);
      if fee - amount > 0 {
        var ts' := ts[index := ts[index].(amount := 0)];
        ChargeCollects(fee - amount, ts', n - 1);
        TransferSumUpdate(ts, index, ts[index].(amount := 0));
        assert ts'[..n - 1] == ts[..n - 1];
        assert Charge(fee, ts, n) == Charge(fee - amount, ts', n - 1);
      } else {
        TransferSumUpdate(ts, index, ts[index].(amount := amount - fee));
        assert Charge(fee, ts, n) == ts[index := ts[index].(amount := amount - fee)];
      }
    }
  }

  lemma {:induction false} DropZeroKeepsSums(ts: seq<Transfer>)
    ensures TransferSum(DropZero(ts)) == TransferSum(ts)
    ensures forall to :: AmountTo(DropZero(ts), to) == AmountTo(ts, to)
  {
    if |ts| > 0 {
      DropZeroKeepsSums(ts[1..]);
      var head := if NonZero(ts[0]) then [ts[0]] else [];
      assert DropZero(ts) == head + DropZero(ts[1..]);
      LedgerConcat(head, DropZero(ts[1..]));
    }
  }

  /** `minorFee(operationalFee, transfers)`. */
  function MinorFee(fee: nat, ts: seq<Transfer>): (r: seq<Transfer>)
    ensures r == DropZero(FeeCharged(fee, ts))
    ensures forall j :: 0 <= j < |r| ==> r[j].amount > 0
    ensures TransferSum(r) + Clamp(TransferSum(ts), fee) == TransferSum(ts)
  {
    var charged := Charge(fee, ts, |ts|);
    ChargeAgrees(fee, ts, |ts|);
    assert charged == FeeCharged(fee, ts) by {
      forall j | 0 <= j < |ts|
        ensures charged[j] == FeeCharged(fee, ts)[j]
      {
        assert ts[j..|ts|] == ts[j..];
      }
    }
    ChargeCollects(fee, ts, |ts|);
    assert ts[..|ts|] == ts;
    DropZeroKeepsSums(charged);
    DropZero(charged)
  }

  /** When the entries from `k` on can cover the fee, every entry before `k` comes
      through the pass unchanged. */
  lemma FeeSparesPrefix(fee: nat, ts: seq<Transfer>, k: nat)
    requires k <= |ts| && fee <= TransferSum(ts[k..])
    ensures forall j :: 0 <= j < k ==> FeeCharged(fee, ts)[j] == ts[j]
  {
    forall j | 0 <= j < k
      ensures FeeCharged(fee, ts)[j] == ts[j]
    {
      assert ts[j..] == ts[j..k] + ts[k..];
      TransferSumConcat(ts[j..k], ts[k..]);
      assert ts[j..k][0] == ts[j];
    }
  }
}

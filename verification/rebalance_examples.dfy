/** Worked inputs for the rebalancing planner, evaluated by the verifier one
    closing account at a time. */
module RebalanceExamples {
  import opened Results
  import opened Sequences
  import opened Accounts
  import opened Waterfall
  import opened FeeReducer
  import opened Rebalance

  // The call at the bottom of the source file: 500 + 500 against 400 owed.

  lemma SourceFirstAccount()
    ensures Settle(ClosingAccount("acc1", 500), Plan([], [RecipientAccount("rec1", 400)], 0))
         == Plan([Transfer("acc1", Some("rec1"), 400), Transfer("acc1", None, 100)], [], 100)
  {
    assert Walk("acc1", 100, []) == Allocation(ClosingAccount("acc1", 100), [], []);
    assert CreateTransfers(ClosingAccount("acc1", 500), [RecipientAccount("rec1", 400)])
        == Allocation(ClosingAccount("acc1", 100), [Transfer("acc1", Some("rec1"), 400)], []);
  }

  lemma SourceSecondAccount()
    ensures Settle(ClosingAccount("acc2", 500), Plan([Transfer("acc1", Some("rec1"), 400), Transfer("acc1", None, 100)], [], 100))
         == Plan([Transfer("acc1", Some("rec1"), 400), Transfer("acc1", None, 100), Transfer("acc2", None, 500)], [], 600)
  {
    assert CreateTransfers(ClosingAccount("acc2", 500), []) == Allocation(ClosingAccount("acc2", 500), [], []);
  }

  /** Before the fee: a payment and two leftovers, the second closing account
      finding nobody left to pay. */
  lemma SourcePlan()
    ensures Planned([ClosingAccount("acc1", 500), ClosingAccount("acc2", 500)], [RecipientAccount("rec1", 400)])
         == Plan([Transfer("acc1", Some("rec1"), 400), Transfer("acc1", None, 100), Transfer("acc2", None, 500)], [], 600)
  {
    var cs := [ClosingAccount("acc1", 500), ClosingAccount("acc2", 500)];
    SourceFirstAccount();
    SourceSecondAccount();
    assert cs[1..][1..] == [];
  }

  /** The result printed by the source: a fee of 10 per entry, 30 in all, taken
      from the last leftover. */
  lemma SourceExample()
    ensures NewRebalancingTx(
              [ClosingAccount("acc1", 500), ClosingAccount("acc2", 500)],
              [RecipientAccount("rec1", 400)])
         == Success(Rebalancing(
              [Transfer("acc1", Some("rec1"), 400), Transfer("acc1", None, 100), Transfer("acc2", None, 470)],
              30))
  {
    SourcePlan();
    SourceFee();
  }

  lemma SourceFee()
    ensures MinorFee(30, [Transfer("acc1", Some("rec1"), 400), Transfer("acc1", None, 100), Transfer("acc2", None, 500)])
         == [Transfer("acc1", Some("rec1"), 400), Transfer("acc1", None, 100), Transfer("acc2", None, 470)]
  {
    var pre := [Transfer("acc1", Some("rec1"), 400), Transfer("acc1", None, 100), Transfer("acc2", None, 500)];
    var charged := [Transfer("acc1", Some("rec1"), 400), Transfer("acc1", None, 100), Transfer("acc2", None, 470)];
    assert Charge(30, pre, 3) == charged;
    FilterKeepsAll(charged, NonZero);
  }

  // A closing account whose surplus exactly equals the head recipient's credit.

  lemma ZeroCreditFirstAccount()
    ensures Settle(ClosingAccount("acc1", 100), Plan([], [RecipientAccount("rec1", 100)], 0))
         == Plan([Transfer("acc1", Some("rec1"), 100)], [RecipientAccount("rec1", 0)], 0)
  {
    assert CreateTransfers(ClosingAccount("acc1", 100), [RecipientAccount("rec1", 100)])
        == Allocation(ClosingAccount("acc1", 0), [Transfer("acc1", Some("rec1"), 100)], [RecipientAccount("rec1", 0)]);
  }

  lemma ZeroCreditSecondWalk()
    ensures CreateTransfers(ClosingAccount("acc2", 50), [RecipientAccount("rec1", 0)])
         == Allocation(ClosingAccount("acc2", 50), [Transfer("acc2", Some("rec1"), 0)], [])
  {
    var rs := [RecipientAccount("rec1", 0)];
    assert rs[1..] == [];
    assert Walk("acc2", 50, []) == Allocation(ClosingAccount("acc2", 50), [], []);
    assert Walk("acc2", 50, rs) == Allocation(ClosingAccount("acc2", 50), [Transfer("acc2", Some("rec1"), 0)], []);
  }

  lemma ZeroCreditSecondAccount()
    ensures Settle(ClosingAccount("acc2", 50), Plan([Transfer("acc1", Some("rec1"), 100)], [RecipientAccount("rec1", 0)], 0))
         == Plan([Transfer("acc1", Some("rec1"), 100), Transfer("acc2", Some("rec1"), 0), Transfer("acc2", None, 50)], [], 50)
  {
    ZeroCreditSecondWalk();
  }

  /** The zero-credit recipient left at the head draws a 0-amount transfer from
      the next closing account, which counts toward the fee. */
  lemma ZeroCreditPlan()
    ensures Planned([ClosingAccount("acc1", 100), ClosingAccount("acc2", 50)], [RecipientAccount("rec1", 100)])
         == Plan([Transfer("acc1", Some("rec1"), 100), Transfer("acc2", Some("rec1"), 0), Transfer("acc2", None, 50)], [], 50)
  {
    var cs := [ClosingAccount("acc1", 100), ClosingAccount("acc2", 50)];
    var p0 := Plan([], [RecipientAccount("rec1", 100)], 0);
    ZeroCreditFirstAccount();
    ZeroCreditSecondAccount();
    var p1 := Settle(cs[0], p0);
    var p2 := Settle(cs[1], p1);
    assert cs[1..][1..] == [];
    assert SettleAll(cs[1..][1..], p2) == p2;
    assert SettleAll(cs[1..], p1) == p2;
  }

  /** The 0-amount transfer is dropped at the end; the fee of 30 comes off the
      leftover. */
  lemma ZeroCreditHeadExample()
    ensures NewRebalancingTx([ClosingAccount("acc1", 100), ClosingAccount("acc2", 50)], [RecipientAccount("rec1", 100)])
         == Success(Rebalancing([Transfer("acc1", Some("rec1"), 100), Transfer("acc2", None, 20)], 30))
  {
    ZeroCreditPlan();
    ZeroCreditFee();
  }

  lemma ZeroCreditFee()
    ensures MinorFee(30, [Transfer("acc1", Some("rec1"), 100), Transfer("acc2", Some("rec1"), 0), Transfer("acc2", None, 50)])
         == [Transfer("acc1", Some("rec1"), 100), Transfer("acc2", None, 20)]
  {
    var pre := [Transfer("acc1", Some("rec1"), 100), Transfer("acc2", Some("rec1"), 0), Transfer("acc2", None, 50)];
    var charged := [Transfer("acc1", Some("rec1"), 100), Transfer("acc2", Some("rec1"), 0), Transfer("acc2", None, 20)];
    assert Charge(30, pre, 3) == charged;
    assert DropZero(charged) == [charged[0], charged[2]] by {
      assert charged[1..][1..] == [charged[2]];
      FilterKeepsAll([charged[2]], NonZero);
      assert Filter(charged[1..], NonZero) == [charged[2]];
    }
  }

  /** 100 available against 150 owed fails before any transfer is planned. */
  lemma NotEnoughFundsExample()
    ensures NewRebalancingTx([ClosingAccount("acc1", 100)], [RecipientAccount("rec1", 150)]) == Failure(NotEnoughFunds)
  {
  }
}

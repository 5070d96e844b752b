/** When the database engine does what the simulations accepted. The simulations check a
    spend once, before its credits; the database checks every single write. */
module EngineAgreement {
  import opened Wrappers
  import opened ChainTypes
  import opened LedgerSpec
  import opened BlockRules
  import opened Conservation
  import opened NonceOrder

  // ----- a spend is one debit followed by credits -----

  function Source(tx: Tx): Id { if IsClaim(tx) then Bucket(tx.claim.value.p) else tx.from }

  function Credits(tx: Tx): seq<TxOut> {
    if IsClaim(tx) then [TxOut(tx.claim.value.amount, "", tx.claim.value.to, "", "", "", "", 0)] else tx.outputs
  }

  function Need(tx: Tx): int { OutTotal(Credits(tx)) + tx.fee }

  // The form every non-coinbase transaction has in a block that passed the basic rules.
  predicate WellFormedSpend(tx: Tx) {
    tx.txType != Coinbase && tx.from != "" && (IsClaim(tx) ==> tx.claim.value.to != "")
  }

  lemma SpendAsPayment(l: Ledger, tx: Tx)
    requires WellFormedSpend(tx)
    ensures SpendTx(l, tx).Ok? <==> tx.nonce == NonceOf(l.nonce, tx.from) + 1 && Balance(l.bal, Source(tx)) >= Need(tx)
    ensures SpendTx(l, tx).Ok? ==>
      SpendTx(l, tx).value ==
        Ledger(CreditAll(Credit(l.bal, Source(tx), -Need(tx)), Credits(tx)), l.nonce[tx.from := tx.nonce])
  {
    if IsClaim(tx) {
      var outs := Credits(tx);
      assert outs[1..] == [];
      assert OutTotal(outs) == outs[0].amount + OutTotal(outs[1..]);
      var m := Credit(l.bal, Source(tx), -Need(tx));
      assert CreditAll(m, outs) == CreditAll(CreditOut(m, outs[0]), outs[1..]);
    }
  }

  lemma DbAsPayment(l: Ledger, tx: Tx)
    requires WellFormedSpend(tx) && Balance(l.bal, Source(tx)) >= Need(tx)
    ensures var l1 := Ledger(Credit(l.bal, Source(tx), -Need(tx)), l.nonce[tx.from := tx.nonce]);
            var o, credited := DbTx(l, tx), DbCredits(l1, Credits(tx));
            o.ok == credited.ok && (o.ok ==> o == credited)
  {
    if IsClaim(tx) {
      var outs := Credits(tx);
      assert outs[1..] == [];
      assert OutTotal(outs) == outs[0].amount + OutTotal(outs[1..]);
      var l1 := Ledger(Credit(l.bal, Source(tx), -Need(tx)), l.nonce[tx.from := tx.nonce]);
      assert Destination(outs[0]) == Some(tx.claim.value.to);
      var o := AddBal(l1, tx.claim.value.to, outs[0].amount);
      assert o.ok ==> DbCredits(o.ledger, outs[1..]) == o;
    }
  }

  // ----- when the credits go through -----

  // What account `d` is credited by these outputs.
  function Received(outs: seq<TxOut>, d: Id): int {
    if outs == [] then 0
    else (if Destination(outs[0]) == Some(d) then outs[0].amount else 0) + Received(outs[1..], d)
  }

  // The account credited by the i-th output does not dip below zero at that point.
  predicate Covered(start: Balances, outs: seq<TxOut>, i: nat)
    requires i < |outs|
  {
    match Destination(outs[i])
    case None => true
    case Some(d) => Balance(start, d) + Received(outs[..i + 1], d) >= 0
  }

  lemma CoveredTail(m: Balances, outs: seq<TxOut>, i: nat)
    requires 0 < i < |outs|
    ensures Covered(m, outs, i) == Covered(CreditOut(m, outs[0]), outs[1..], i - 1)
  {
    assert outs[..i + 1][1..] == outs[1..][..i];
    assert outs[1..][i - 1] == outs[i];
  }

  lemma CoveredHead(m: Balances, outs: seq<TxOut>)
    requires outs != []
    ensures Covered(m, outs, 0) <==>
            (Destination(outs[0]).Some? ==> Balance(m, Destination(outs[0]).value) + outs[0].amount >= 0)
  {
    assert outs[..1][1..] == [];
    assert forall d :: Received(outs[..1], d) == (if Destination(outs[0]) == Some(d) then outs[0].amount else 0) + Received(outs[..1][1..], d);
  }

  lemma {:induction false} DbCreditsOk(l: Ledger, outs: seq<TxOut>)
    ensures DbCredits(l, outs).ok <==> forall i :: 0 <= i < |outs| ==> Covered(l.bal, outs, i)
    ensures DbCredits(l, outs).ok ==> DbCredits(l, outs).ledger == l.(bal := CreditAll(l.bal, outs))
    decreases |outs|
  {
    if outs != [] {
      var l1 := l.(bal := CreditOut(l.bal, outs[0]));
      CoveredHead(l.bal, outs);
      DbCreditsOk(l1, outs[1..]);
      forall i | 0 < i < |outs|
        ensures Covered(l.bal, outs, i) == Covered(l1.bal, outs[1..], i - 1)
      {
        CoveredTail(l.bal, outs, i);
      }
      if forall i :: 0 <= i < |outs| ==> Covered(l.bal, outs, i) {
        forall i | 0 <= i < |outs[1..]| ensures Covered(l1.bal, outs[1..], i) {
          assert Covered(l.bal, outs, i + 1);
        }
      }
    }
  }

  // ----- the exact condition -----

  // What the debit itself leaves on the source account at the least: a negative need is a gift.
  function Left(tx: Tx): Balances { map[Source(tx) := if Need(tx) < 0 then -Need(tx) else 0] }

  /** Counting only what the transaction itself moves, no credited account ever dips below zero. */
  predicate NeverOverdrawn(tx: Tx) {
    forall i :: 0 <= i < |Credits(tx)| ==> Covered(Left(tx), Credits(tx), i)
  }

  // On every ledger where the simulation accepts, the database does the same and succeeds.
  ghost predicate Agrees(tx: Tx) {
    forall l: Ledger :: NonNegative(l.bal) && SpendTx(l, tx).Ok? ==> DbTx(l, tx) == Outcome(SpendTx(l, tx).value, true)
  }

  lemma AcceptedSpendIsApplied(l: Ledger, tx: Tx)
    requires WellFormedSpend(tx) && NeverOverdrawn(tx)
    requires NonNegative(l.bal) && SpendTx(l, tx).Ok?
    ensures DbTx(l, tx) == Outcome(SpendTx(l, tx).value, true)
    ensures NonNegative(SpendTx(l, tx).value.bal)
  {
    SpendAsPayment(l, tx);
    DbAsPayment(l, tx);
    var outs := Credits(tx);
    var l1 := Ledger(Credit(l.bal, Source(tx), -Need(tx)), l.nonce[tx.from := tx.nonce]);
    forall i | 0 <= i < |outs| ensures Covered(l1.bal, outs, i) {
      assert Covered(Left(tx), outs, i);
      if Destination(outs[i]).Some? {
        assert Balance(l1.bal, Destination(outs[i]).value) >= Balance(Left(tx), Destination(outs[i]).value);
      }
    }
    DbCreditsOk(l1, outs);
    DbTxTotal(l, tx);
  }

  // The poorest ledger on which the simulation accepts the transaction.
  function Poorest(tx: Tx): Ledger
    requires tx.nonce > 0
  {
    Ledger(map[Source(tx) := if Need(tx) < 0 then 0 else Need(tx)], map[tx.from := tx.nonce - 1])
  }

  lemma OverdrawnOnPoorest(tx: Tx)
    requires WellFormedSpend(tx) && tx.nonce > 0
    ensures NonNegative(Poorest(tx).bal) && SpendTx(Poorest(tx), tx).Ok?
    ensures DbTx(Poorest(tx), tx).ok ==> NeverOverdrawn(tx)
  {
    var l := Poorest(tx);
    SpendAsPayment(l, tx);
    DbAsPayment(l, tx);
    var l1 := Ledger(Credit(l.bal, Source(tx), -Need(tx)), l.nonce[tx.from := tx.nonce]);
    assert l1.bal == Left(tx);
    DbCreditsOk(l1, Credits(tx));
  }

  /** The engines agree on a transaction, whatever the ledger, exactly when it never overdraws
      an account it credits (a transaction with nonce zero is never accepted at all). */
  lemma AgreesIff(tx: Tx)
    requires WellFormedSpend(tx)
    ensures Agrees(tx) <==> tx.nonce == 0 || NeverOverdrawn(tx)
  {
    if tx.nonce > 0 { OverdrawnOnPoorest(tx); }
    if tx.nonce == 0 || NeverOverdrawn(tx) {
      forall l: Ledger | NonNegative(l.bal) && SpendTx(l, tx).Ok?
        ensures DbTx(l, tx) == Outcome(SpendTx(l, tx).value, true)
      {
        SpendAsPayment(l, tx);
        AcceptedSpendIsApplied(l, tx);
      }
    }
  }

  lemma {:induction false} ReceivedNonNegative(outs: seq<TxOut>, d: Id)
    requires forall i :: 0 <= i < |outs| ==> outs[i].amount >= 0
    ensures Received(outs, d) >= 0
  {
    if outs != [] { ReceivedNonNegative(outs[1..], d); }
  }

  predicate NonNegativeAmounts(tx: Tx) { forall i :: 0 <= i < |Credits(tx)| ==> Credits(tx)[i].amount >= 0 }

  lemma NonNegativeAmountsSuffice(tx: Tx)
    requires NonNegativeAmounts(tx)
    ensures NeverOverdrawn(tx)
  {
    var outs := Credits(tx);
    forall i | 0 <= i < |outs| ensures Covered(Left(tx), outs, i) {
      if Destination(outs[i]).Some? { ReceivedNonNegative(outs[..i + 1], Destination(outs[i]).value); }
    }
  }

  /** The basic rules do not look at the sign of an amount: a block with one signed, fee-paying
      transfer of a negative amount passes them and the simulations, and the database refuses it. */
  lemma NegativeOutputSplitsTheEngines()
    ensures exists cfg: Config, l: Ledger, tx: Tx ::
      && BasicOk(cfg, [tx]) && |tx.outputs| == 1 && tx.outputs[0].amount < 0
      && NonNegative(l.bal) && RunTxs(l, [tx]).Ok? && !DbTxs(l, [tx]).ok
  {
    var out := TxOut(-1, "", "b", "", "", "", "", 0);
    var tx := Tx(1, "transfer", "a", "a", "s", 1, 1, "", [out], None, "");
    var cfg := Config(false, 0, FeeParams(0, 0, 1, Normal), 0, 0, 0, false, 0, _ => true, _ => true);
    assert [out][..1] == [out] && [out][1..] == [];
    assert Received([out], "b") == -1 + Received([out][1..], "b");
    assert OutTotal([out]) == -1 + OutTotal([out][1..]);
    assert !Covered(Left(tx), Credits(tx), 0);
    OverdrawnOnPoorest(tx);
    OneTx(Poorest(tx), tx);
    assert SpendOk(cfg, tx);
    assert BasicOk(cfg, [tx]);
  }

  lemma OneTx(l: Ledger, tx: Tx)
    ensures RunTxs(l, [tx]) == StepTx(l, tx) && DbTxs(l, [tx]) == DbTx(l, tx)
  {
    assert [tx][1..] == [];
    if StepTx(l, tx).Ok? { assert RunTxs(StepTx(l, tx).value, [tx][1..]) == StepTx(l, tx); }
    if DbTx(l, tx).ok { assert DbTxs(DbTx(l, tx).ledger, [tx][1..]) == DbTx(l, tx); }
  }

  // ----- the coinbase -----

  // What the simulations do with it, on any ledger.
  lemma CoinbaseStep(l: Ledger, cb: Tx)
    requires cb.txType == Coinbase && |cb.outputs| == 1
    ensures StepTx(l, cb) == Ok(l.(bal := Credit(l.bal, cb.outputs[0].address, cb.outputs[0].amount)))
  {
    var o := cb.outputs[0];
    assert cb.outputs[1..] == [];
    assert MintAll(l.bal, cb.outputs) == MintAll(Credit(l.bal, o.address, o.amount), cb.outputs[1..]);
  }

  lemma PlainCoinbaseIsApplied(l: Ledger, cb: Tx)
    requires PlainCoinbase(cb) && NonNegative(l.bal)
    ensures DbTx(l, cb) == Outcome(StepTx(l, cb).value, true)
  {
    var o := cb.outputs[0];
    CoinbaseStep(l, cb);
    assert cb.outputs[1..] == [];
    var credited := AddBal(l, o.address, o.amount);
    assert DbCredits(credited.ledger, cb.outputs[1..]) == credited;
  }

  lemma OddCoinbaseDiffers(cb: Tx)
    requires cb.txType == Coinbase && |cb.outputs| == 1 && !PlainCoinbase(cb)
    ensures var l := Ledger(map[], map[]); DbTx(l, cb) != Outcome(StepTx(l, cb).value, true)
  {
    var l, o := Ledger(map[], map[]), cb.outputs[0];
    CoinbaseStep(l, cb);
    if cb.from != "" {
      CoinbaseSenderNonce(l, cb);
    } else {
      DbCreditsOk(l, cb.outputs);
      CoveredHead(l.bal, cb.outputs);
      assert cb.outputs[1..] == [];
      assert CreditAll(l.bal, cb.outputs) == CreditAll(CreditOut(l.bal, o), cb.outputs[1..]);
      assert o.address == "" ==> "" !in CreditOut(l.bal, o);
    }
  }

  /** A one-output coinbase means the same to the simulations and to the database, on every
      ledger, exactly when it names an address and no sender and its amount is not negative. */
  lemma CoinbaseAgreesIff(cb: Tx)
    requires cb.txType == Coinbase && |cb.outputs| == 1
    ensures (forall l: Ledger :: NonNegative(l.bal) ==> DbTx(l, cb) == Outcome(StepTx(l, cb).value, true))
            <==> cb.from == "" && cb.outputs[0].address != "" && cb.outputs[0].amount >= 0
  {
    if PlainCoinbase(cb) {
      forall l: Ledger | NonNegative(l.bal) ensures DbTx(l, cb) == Outcome(StepTx(l, cb).value, true) {
        PlainCoinbaseIsApplied(l, cb);
      }
    } else {
      OddCoinbaseDiffers(cb);
      assert NonNegative(Ledger(map[], map[]).bal);
    }
  }

  lemma CoinbaseSenderNonce(l: Ledger, cb: Tx)
    requires cb.txType == Coinbase && cb.from != ""
    ensures DbTx(l, cb).ok ==> cb.from in DbTx(l, cb).ledger.nonce
  {
    var o := AddBal(l, cb.from, -(OutTotal(cb.outputs) + cb.fee));
    if o.ok { DbCreditsOk(SetNonceIn(o.ledger, cb.from, cb.nonce), cb.outputs); }
  }

  // ----- whole blocks -----

  predicate PlainCoinbase(tx: Tx) {
    tx.txType == Coinbase && tx.from == "" && |tx.outputs| == 1 && tx.outputs[0].address != "" && tx.outputs[0].amount >= 0
  }

  // A transaction on which the engines agree by AgreesIff and CoinbaseAgreesIff.
  predicate Safe(tx: Tx) { PlainCoinbase(tx) || (WellFormedSpend(tx) && NeverOverdrawn(tx)) }

  lemma SafeStepIsApplied(l: Ledger, tx: Tx)
    requires Safe(tx) && NonNegative(l.bal) && StepTx(l, tx).Ok?
    ensures DbTx(l, tx) == Outcome(StepTx(l, tx).value, true)
    ensures NonNegative(StepTx(l, tx).value.bal)
  {
    if tx.txType == Coinbase { PlainCoinbaseIsApplied(l, tx); } else { AcceptedSpendIsApplied(l, tx); }
    DbTxTotal(l, tx);
  }

  /** Whatever sequence of safe transactions a simulation accepts, the database engine applies
      without ever running out of funds and ends in exactly the simulated ledger. */
  lemma {:induction false} EnginesAgree(l: Ledger, txs: seq<Tx>)
    requires forall i :: 0 <= i < |txs| ==> Safe(txs[i])
    requires NonNegative(l.bal) && RunTxs(l, txs).Ok?
    ensures DbTxs(l, txs) == Outcome(RunTxs(l, txs).value, true)
    ensures NonNegative(RunTxs(l, txs).value.bal)
    decreases |txs|
  {
    if txs != [] {
      SafeStepIsApplied(l, txs[0]);
      EnginesAgree(StepTx(l, txs[0]).value, txs[1..]);
    }
  }

  /** And so for chains: blocks of safe transactions that the simulations accept one on the ledger
      of the other are replayed by the database without failure, to the same ledger. */
  lemma {:induction false} SafeChainReplays(l: Ledger, bs: seq<Block>)
    requires NonNegative(l.bal) && RunBlocks(l, bs).Ok?
    requires forall i, j :: 0 <= i < |bs| && 0 <= j < |bs[i].txs| ==> Safe(bs[i].txs[j])
    ensures Replay(l, bs) == Outcome(RunBlocks(l, bs).value, true)
    decreases |bs|
  {
    if bs != [] {
      EnginesAgree(l, bs[0].txs);
      forall i, j | 0 <= i < |bs[1..]| && 0 <= j < |bs[1..][i].txs| ensures Safe(bs[1..][i].txs[j]) {
        assert bs[1..][i] == bs[i + 1];
      }
      SafeChainReplays(RunTxs(l, bs[0].txs).value, bs[1..]);
    }
  }

  /** The same from the block rules: in a block that passed them, non-negative amounts and a
      coinbase with an address and no sender are enough. */
  lemma ValidBlocksAgree(cfg: Config, l: Ledger, txs: seq<Tx>)
    requires BasicOk(cfg, txs) && cfg.blockReward >= 0
    requires cfg.issuance ==> txs[0].from == "" && txs[0].outputs[0].address != ""
    requires forall i :: FirstSpend(cfg) <= i < |txs| ==> NonNegativeAmounts(txs[i])
    requires NonNegative(l.bal) && RunTxs(l, txs).Ok?
    ensures DbTxs(l, txs) == Outcome(RunTxs(l, txs).value, true)
  {
    forall i | 0 <= i < |txs| ensures Safe(txs[i]) {
      if i >= FirstSpend(cfg) {
        assert SpendOk(cfg, txs[i]);
        NonNegativeAmountsSuffice(txs[i]);
      }
    }
    EnginesAgree(l, txs);
  }

  // ----- conservation, in the block rules' own terms -----

  function SumFees(txs: seq<Tx>): int {
    if txs == [] then 0 else (if txs[0].txType == Coinbase then 0 else txs[0].fee) + SumFees(txs[1..])
  }

  function Minted(txs: seq<Tx>): int {
    if txs == [] then 0 else (if txs[0].txType == Coinbase then OutTotal(txs[0].outputs) else 0) + Minted(txs[1..])
  }

  function LostBy(txs: seq<Tx>): int {
    if txs == [] then 0
    else (if txs[0].txType == Coinbase || IsClaim(txs[0]) then 0 else Lost(txs[0].outputs)) + LostBy(txs[1..])
  }

  lemma {:induction false} DeltaOfSafe(txs: seq<Tx>)
    requires forall i :: 0 <= i < |txs| ==> Safe(txs[i])
    ensures DeltaTxs(txs) == Minted(txs) - SumFees(txs) - LostBy(txs)
  {
    if txs != [] {
      DeltaOfSafe(txs[1..]);
      var tx := txs[0];
      if tx.txType == Coinbase {
        assert tx.outputs[1..] == [];
        assert Destined(tx.outputs) == tx.outputs[0].amount + Destined(tx.outputs[1..]);
        assert OutTotal(tx.outputs) == tx.outputs[0].amount + OutTotal(tx.outputs[1..]);
      }
    }
  }

  /** An accepted block changes the sum of all balances by exactly its coinbase outputs, less
      its fees, less the outputs that name no destination. */
  lemma BlockConserves(l: Ledger, txs: seq<Tx>)
    requires forall i :: 0 <= i < |txs| ==> Safe(txs[i])
    requires NonNegative(l.bal) && RunTxs(l, txs).Ok?
    ensures Total(RunTxs(l, txs).value.bal) == Total(l.bal) + Minted(txs) - SumFees(txs) - LostBy(txs)
  {
    EnginesAgree(l, txs);
    DbTxsTotal(l, txs);
    DeltaOfSafe(txs);
  }

  method ComputeSumFees(txs: seq<Tx>) returns (s: int)
    ensures s == SumFees(txs)
  {
    s := 0;
    for i := 0 to |txs|
      invariant s + SumFees(txs[i..]) == SumFees(txs)
    {
      assert txs[i..][1..] == txs[i + 1..];
      if txs[i].txType == Coinbase { continue; }
      s := s + txs[i].fee;
    }
  }
}

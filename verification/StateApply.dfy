/** The database engine (core/node/state_apply.go). */
module StateApply {
  import opened ChainTypes
  import opened LedgerSpec
  import opened Storage

  method CreditOutputs(db: Db, outs: seq<TxOut>) returns (ok: bool)
    modifies db`bal
    ensures var o := DbCredits(old(LedgerOf(db)), outs); LedgerOf(db) == o.ledger && ok == o.ok
  {
    for i := 0 to |outs|
      invariant db.nonce == old(db.nonce)
      invariant DbCredits(LedgerOf(db), outs[i..]) == DbCredits(old(LedgerOf(db)), outs)
    {
      assert outs[i..][1..] == outs[i + 1..];
      var o := outs[i];
      if o.address != "" {
        var credited := AddBalance(db, o.address, o.amount);
        if !credited { return false; }
        continue;
      }
      if o.p != "" {
        var credited := AddBalance(db, Bucket(o.p), o.amount);
        if !credited { return false; }
      }
    }
    return true;
  }

  method ApplyTx(db: Db, tx: Tx) returns (ok: bool)
    modifies db`bal, db`nonce
    ensures var o := DbTx(old(LedgerOf(db)), tx); LedgerOf(db) == o.ledger && ok == o.ok
  {
    if tx.txType == Claim && tx.claim.Some? {
      var c := tx.claim.value;
      SetNonce(db, tx.from, tx.nonce);
      ok := AddBalance(db, Bucket(c.p), -(c.amount + tx.fee));
      if ok { ok := AddBalance(db, c.to, c.amount); }
      return;
    }
    var outTotal := 0;
    for i := 0 to |tx.outputs|
      invariant outTotal + OutTotal(tx.outputs[i..]) == OutTotal(tx.outputs)
    {
      assert tx.outputs[i..][1..] == tx.outputs[i + 1..];
      outTotal := outTotal + tx.outputs[i].amount;
    }
    if tx.from != "" {
      ok := AddBalance(db, tx.from, -(outTotal + tx.fee));
      if !ok { return; }
      SetNonce(db, tx.from, tx.nonce);
    }
    ok := CreditOutputs(db, tx.outputs);
  }

  /** Applies the block's transactions in order and stops at the first that would make a
      balance negative; what was written until then stays written. */
  method ApplyBlockTxs(db: Db, b: Block) returns (ok: bool)
    modifies db`bal, db`nonce
    ensures var o := DbTxs(old(LedgerOf(db)), b.txs); LedgerOf(db) == o.ledger && ok == o.ok
  {
    for i := 0 to |b.txs|
      invariant DbTxs(LedgerOf(db), b.txs[i..]) == DbTxs(old(LedgerOf(db)), b.txs)
    {
      assert b.txs[i..][1..] == b.txs[i + 1..];
      var applied := ApplyTx(db, b.txs[i]);
      if !applied { return false; }
    }
    return true;
  }
}

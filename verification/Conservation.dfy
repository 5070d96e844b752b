/** Money is neither made nor lost by the database engine beyond coinbases, fees and
    outputs that name no destination; and no balance is ever negative. */
module Conservation {
  import opened ChainTypes
  import opened LedgerSpec

  // ----- the sum of all balances -----

  ghost function Total(m: Balances): int {
    if m == map[] then 0 else var k :| k in m; m[k] + Total(m - {k})
  }

  lemma {:induction false} TotalRemove(m: Balances, k: Id)
    requires k in m
    ensures Total(m) == m[k] + Total(m - {k})
    decreases |m|
  {
    var j :| j in m && Total(m) == m[j] + Total(m - {j});
    if j != k {
      assert k in m - {j} && j in m - {k};
      TotalRemove(m - {j}, k);
      TotalRemove(m - {k}, j);
      assert (m - {j}) - {k} == (m - {k}) - {j};
    }
  }

  lemma TotalCredit(m: Balances, id: Id, v: int)
    ensures Total(Credit(m, id, v)) == Total(m) + v
  {
    var m' := Credit(m, id, v);
    TotalRemove(m', id);
    assert m' - {id} == m - {id};
    if id in m { TotalRemove(m, id); } else { assert m - {id} == m; }
  }

  // ----- what a transaction adds to the sum -----

  function Destined(outs: seq<TxOut>): int {
    if outs == [] then 0
    else (if Destination(outs[0]).Some? then outs[0].amount else 0) + Destined(outs[1..])
  }

  function Lost(outs: seq<TxOut>): int {
    if outs == [] then 0
    else (if Destination(outs[0]).None? then outs[0].amount else 0) + Lost(outs[1..])
  }

  // Issued by a senderless transaction; otherwise its fee and its lost outputs leave the ledger.
  function Delta(tx: Tx): int {
    if IsClaim(tx) then -tx.fee
    else if tx.from == "" then Destined(tx.outputs)
    else -tx.fee - Lost(tx.outputs)
  }

  function DeltaTxs(txs: seq<Tx>): int {
    if txs == [] then 0 else Delta(txs[0]) + DeltaTxs(txs[1..])
  }

  function DeltaBlocks(blocks: seq<Block>): int {
    if blocks == [] then 0 else DeltaTxs(blocks[0].txs) + DeltaBlocks(blocks[1..])
  }

  lemma {:induction false} OutputsSplit(outs: seq<TxOut>)
    ensures OutTotal(outs) == Destined(outs) + Lost(outs)
  {
    if outs != [] { OutputsSplit(outs[1..]); }
  }

  lemma {:induction false} DbCreditsTotal(l: Ledger, outs: seq<TxOut>)
    ensures var o := DbCredits(l, outs);
            (o.ok ==> Total(o.ledger.bal) == Total(l.bal) + Destined(outs))
            && (NonNegative(l.bal) ==> NonNegative(o.ledger.bal))
    decreases |outs|
  {
    if outs != [] {
      match Destination(outs[0])
      case None => DbCreditsTotal(l, outs[1..]);
      case Some(id) =>
        var o := AddBal(l, id, outs[0].amount);
        TotalCredit(l.bal, id, outs[0].amount);
        if o.ok { DbCreditsTotal(o.ledger, outs[1..]); }
    }
  }

  lemma DbClaimTotal(l: Ledger, tx: Tx)
    requires IsClaim(tx)
    ensures var o := DbTx(l, tx);
            (o.ok ==> Total(o.ledger.bal) == Total(l.bal) - tx.fee)
            && (NonNegative(l.bal) ==> NonNegative(o.ledger.bal))
  {
    var c := tx.claim.value;
    TotalCredit(l.bal, Bucket(c.p), -(c.amount + tx.fee));
    TotalCredit(Credit(l.bal, Bucket(c.p), -(c.amount + tx.fee)), c.to, c.amount);
  }

  lemma DbTxTotal(l: Ledger, tx: Tx)
    ensures var o := DbTx(l, tx);
            (o.ok ==> Total(o.ledger.bal) == Total(l.bal) + Delta(tx))
            && (NonNegative(l.bal) ==> NonNegative(o.ledger.bal))
  {
    if IsClaim(tx) {
      DbClaimTotal(l, tx);
    } else if tx.from == "" {
      DbCreditsTotal(l, tx.outputs);
    } else {
      var need := OutTotal(tx.outputs) + tx.fee;
      TotalCredit(l.bal, tx.from, -need);
      OutputsSplit(tx.outputs);
      var o := AddBal(l, tx.from, -need);
      if o.ok { DbCreditsTotal(SetNonceIn(o.ledger, tx.from, tx.nonce), tx.outputs); }
    }
  }

  lemma {:induction false} DbTxsTotal(l: Ledger, txs: seq<Tx>)
    ensures var o := DbTxs(l, txs);
            (o.ok ==> Total(o.ledger.bal) == Total(l.bal) + DeltaTxs(txs))
            && (NonNegative(l.bal) ==> NonNegative(o.ledger.bal))
    decreases |txs|
  {
    if txs != [] {
      DbTxTotal(l, txs[0]);
      var o := DbTx(l, txs[0]);
      if o.ok { DbTxsTotal(o.ledger, txs[1..]); }
    }
  }

  /** Over any chain of blocks the database engine changes the sum of all balances, OTAP
      buckets included, by exactly what the blocks issue and burn; and whether or not every
      block goes through, it never leaves a negative balance. */
  lemma {:induction false} ReplayConserves(l: Ledger, blocks: seq<Block>)
    ensures var o := Replay(l, blocks);
            (o.ok ==> Total(o.ledger.bal) == Total(l.bal) + DeltaBlocks(blocks))
            && (NonNegative(l.bal) ==> NonNegative(o.ledger.bal))
    decreases |blocks|
  {
    if blocks != [] {
      DbTxsTotal(l, blocks[0].txs);
      var o := DbTxs(l, blocks[0].txs);
      if o.ok { ReplayConserves(o.ledger, blocks[1..]); }
    }
  }
}

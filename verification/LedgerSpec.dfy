/** The account ledger: one reference interpreter for the two in-memory simulations,
    and one for the database engine, on plain maps where a missing key reads as zero. */
module LedgerSpec {
  import opened Wrappers
  import opened ChainTypes

  type Balances = map<Id, int>
  type Nonces = map<Id, nat>

  datatype Ledger = Ledger(bal: Balances, nonce: Nonces)

  datatype LedgerError = BadNonce | InsufficientBucket | InsufficientFunds

  function Balance(m: Balances, id: Id): int { if id in m then m[id] else 0 }

  function NonceOf(m: Nonces, id: Id): nat { if id in m then m[id] else 0 }

  ghost predicate NonNegative(m: Balances) { forall id :: id in m ==> m[id] >= 0 }

  function Credit(m: Balances, id: Id, v: int): Balances { m[id := Balance(m, id) + v] }

  // ----- where an output goes -----

  // A plain address wins over a one-time key; an output with neither goes nowhere.
  function Destination(o: TxOut): Option<Id> {
    if o.address != "" then Some(o.address) else if o.p != "" then Some(Bucket(o.p)) else None
  }

  function CreditOut(m: Balances, o: TxOut): Balances {
    match Destination(o) case Some(id) => Credit(m, id, o.amount) case None => m
  }

  function CreditAll(m: Balances, outs: seq<TxOut>): Balances
    decreases |outs|
  {
    if outs == [] then m else CreditAll(CreditOut(m, outs[0]), outs[1..])
  }

  // Coinbase outputs are credited to their address field, whatever it holds.
  function MintAll(m: Balances, outs: seq<TxOut>): Balances
    decreases |outs|
  {
    if outs == [] then m else MintAll(Credit(m, outs[0].address, outs[0].amount), outs[1..])
  }

  function OutTotal(outs: seq<TxOut>): int {
    if outs == [] then 0 else outs[0].amount + OutTotal(outs[1..])
  }

  // ----- the simulations' interpreter -----

  predicate IsClaim(tx: Tx) { tx.txType == Claim && tx.claim.Some? }

  function SpendTx(l: Ledger, tx: Tx): Result<Ledger, LedgerError> {
    if tx.nonce != NonceOf(l.nonce, tx.from) + 1 then Err(BadNonce)
    else
      var nonce := l.nonce[tx.from := tx.nonce];
      if IsClaim(tx) then
        var c := tx.claim.value;
        var need := c.amount + tx.fee;
        if Balance(l.bal, Bucket(c.p)) < need then Err(InsufficientBucket)
        else Ok(Ledger(Credit(Credit(l.bal, Bucket(c.p), -need), c.to, c.amount), nonce))
      else
        var need := OutTotal(tx.outputs) + tx.fee;
        if Balance(l.bal, tx.from) < need then Err(InsufficientFunds)
        else Ok(Ledger(CreditAll(Credit(l.bal, tx.from, -need), tx.outputs), nonce))
  }

  function StepTx(l: Ledger, tx: Tx): Result<Ledger, LedgerError> {
    if tx.txType == Coinbase then Ok(l.(bal := MintAll(l.bal, tx.outputs))) else SpendTx(l, tx)
  }

  function RunTxs(l: Ledger, txs: seq<Tx>): Result<Ledger, LedgerError>
    decreases |txs|
  {
    if txs == [] then Ok(l)
    else match StepTx(l, txs[0])
         case Err(e) => Err(e)
         case Ok(l') => RunTxs(l', txs[1..])
  }

  // ----- the database engine's interpreter -----

  // The database is written as it goes, so a failed run leaves a ledger behind as well.
  datatype Outcome = Outcome(ledger: Ledger, ok: bool)

  function AddBal(l: Ledger, id: Id, delta: int): Outcome {
    if Balance(l.bal, id) + delta < 0 then Outcome(l, false)
    else Outcome(l.(bal := Credit(l.bal, id, delta)), true)
  }

  function SetNonceIn(l: Ledger, id: Id, n: nat): Ledger { l.(nonce := l.nonce[id := n]) }

  function DbCredits(l: Ledger, outs: seq<TxOut>): Outcome
    decreases |outs|
  {
    if outs == [] then Outcome(l, true)
    else
      match Destination(outs[0])
      case None => DbCredits(l, outs[1..])
      case Some(id) =>
        var o := AddBal(l, id, outs[0].amount);
        if !o.ok then o else DbCredits(o.ledger, outs[1..])
  }

  function DbTx(l: Ledger, tx: Tx): Outcome {
    if IsClaim(tx) then
      var c := tx.claim.value;
      var o := AddBal(SetNonceIn(l, tx.from, tx.nonce), Bucket(c.p), -(c.amount + tx.fee));
      if !o.ok then o else AddBal(o.ledger, c.to, c.amount)
    else if tx.from == "" then DbCredits(l, tx.outputs)
    else
      var o := AddBal(l, tx.from, -(OutTotal(tx.outputs) + tx.fee));
      if !o.ok then o else DbCredits(SetNonceIn(o.ledger, tx.from, tx.nonce), tx.outputs)
  }

  function DbTxs(l: Ledger, txs: seq<Tx>): Outcome
    decreases |txs|
  {
    if txs == [] then Outcome(l, true)
    else var o := DbTx(l, txs[0]);
         if !o.ok then o else DbTxs(o.ledger, txs[1..])
  }

  function Replay(l: Ledger, blocks: seq<Block>): Outcome
    decreases |blocks|
  {
    if blocks == [] then Outcome(l, true)
    else var o := DbTxs(l, blocks[0].txs);
         if !o.ok then o else Replay(o.ledger, blocks[1..])
  }

  lemma {:induction false} ReplayConcat(l: Ledger, xs: seq<Block>, ys: seq<Block>)
    ensures var o := Replay(l, xs);
            Replay(l, xs + ys) == if o.ok then Replay(o.ledger, ys) else o
    decreases |xs|
  {
    if xs == [] {
      assert xs + ys == ys;
    } else {
      assert (xs + ys)[1..] == xs[1..] + ys;
      var o := DbTxs(l, xs[0].txs);
      if o.ok { ReplayConcat(o.ledger, xs[1..], ys); }
    }
  }
}

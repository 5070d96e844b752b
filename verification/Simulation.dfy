/** The two in-memory engines: the overlay over the database used when a block extends the
    tip (core/node/block_validate.go) and the self-contained maps used when a fork is
    replayed (core/node/block_validate_fork.go). Both are tied to the one reference interpreter. */
module Simulation {
  import opened Wrappers
  import opened ChainTypes
  import opened LedgerSpec
  import opened Storage
  import opened BlockRules

  // What a lookup through the overlays sees: the overlay where it has an entry, else the database.
  ghost function Seen(db: Db, bal: Balances, non: Nonces): Ledger
    reads db
  {
    Ledger(db.bal + bal, db.nonce + non)
  }

  // The memoising read: the value is remembered in the overlay.
  method GetBal(db: Db, bal: Balances, id: Id) returns (v: int, bal': Balances)
    ensures v == Balance(db.bal + bal, id)
    ensures bal' == bal[id := v]
  {
    if id in bal { return bal[id], bal; }
    v := Balance(db.bal, id);
    bal' := bal[id := v];
  }

  lemma OverlaySet<V>(m: map<Id, V>, ov: map<Id, V>, id: Id, v: V)
    ensures m + ov[id := v] == (m + ov)[id := v]
  {
  }

  method OverlayCredit(db: Db, bal0: Balances, id: Id, amount: int) returns (bal: Balances)
    ensures db.bal + bal == Credit(db.bal + bal0, id, amount)
  {
    var v;
    v, bal := GetBal(db, bal0, id);
    bal := bal[id := v + amount];
    OverlaySet(db.bal, bal0, id, v + amount);
  }

  // Take `need` from an account, if it holds that much.
  method OverlayDebit(db: Db, bal0: Balances, id: Id, need: int) returns (ok: bool, bal: Balances)
    ensures ok <==> Balance(db.bal + bal0, id) >= need
    ensures ok ==> db.bal + bal == Credit(db.bal + bal0, id, -need)
    ensures !ok ==> bal == bal0[id := Balance(db.bal + bal0, id)]
  {
    var v;
    v, bal := GetBal(db, bal0, id);
    if v < need { return false, bal; }
    bal := bal[id := v - need];
    OverlaySet(db.bal, bal0, id, v - need);
    return true, bal;
  }

  method SumOutputs(outs: seq<TxOut>) returns (total: int)
    ensures total == OutTotal(outs)
  {
    total := 0;
    for i := 0 to |outs|
      invariant total + OutTotal(outs[i..]) == OutTotal(outs)
    {
      assert outs[i..][1..] == outs[i + 1..];
      total := total + outs[i].amount;
    }
  }

  method OverlayCredits(db: Db, bal0: Balances, outs: seq<TxOut>) returns (bal: Balances)
    ensures db.bal + bal == CreditAll(db.bal + bal0, outs)
  {
    bal := bal0;
    for i := 0 to |outs|
      invariant CreditAll(db.bal + bal, outs[i..]) == CreditAll(db.bal + bal0, outs)
    {
      assert outs[i..][1..] == outs[i + 1..];
      var o := outs[i];
      if o.address != "" {
        bal := OverlayCredit(db, bal, o.address, o.amount);
      } else if o.p != "" {
        bal := OverlayCredit(db, bal, Bucket(o.p), o.amount);
      }
    }
  }

  method OverlayClaim(db: Db, bal0: Balances, c: OtapClaim, fee: int) returns (ok: bool, bal: Balances)
    ensures ok <==> Balance(db.bal + bal0, Bucket(c.p)) >= c.amount + fee
    ensures ok ==> db.bal + bal == Credit(Credit(db.bal + bal0, Bucket(c.p), -(c.amount + fee)), c.to, c.amount)
  {
    ok, bal := OverlayDebit(db, bal0, Bucket(c.p), c.amount + fee);
    if ok { bal := OverlayCredit(db, bal, c.to, c.amount); }
  }

  method OverlayTransfer(db: Db, bal0: Balances, tx: Tx) returns (ok: bool, bal: Balances)
    ensures ok <==> Balance(db.bal + bal0, tx.from) >= OutTotal(tx.outputs) + tx.fee
    ensures ok ==> db.bal + bal == CreditAll(Credit(db.bal + bal0, tx.from, -(OutTotal(tx.outputs) + tx.fee)), tx.outputs)
  {
    var outTotal := SumOutputs(tx.outputs);
    ok, bal := OverlayDebit(db, bal0, tx.from, outTotal + tx.fee);
    if ok { bal := OverlayCredits(db, bal, tx.outputs); }
  }

  method OverlaySpend(db: Db, bal0: Balances, non0: Nonces, tx: Tx)
    returns (r: Option<LedgerError>, bal: Balances, non: Nonces)
    requires tx.txType == Claim ==> tx.claim.Some?
    ensures SpendTx(Seen(db, bal0, non0), tx) ==
            if r.None? then Ok(Seen(db, bal, non)) else Err(r.value)
  {
    bal, non := bal0, non0;
    var cur := if tx.from in non then non[tx.from] else NonceOf(db.nonce, tx.from);
    if tx.nonce != cur + 1 { r := Some(BadNonce); return; }
    non := non[tx.from := tx.nonce];
    OverlaySet(db.nonce, non0, tx.from, tx.nonce);
    var paid;
    if tx.txType == Claim {
      paid, bal := OverlayClaim(db, bal, tx.claim.value, tx.fee);
      r := if paid then None else Some(InsufficientBucket);
    } else {
      paid, bal := OverlayTransfer(db, bal, tx);
      r := if paid then None else Some(InsufficientFunds);
    }
  }

  // The coinbase credit, to the address of the first output.
  method OverlayCoinbase(db: Db, cb: Tx) returns (bal: Balances)
    requires cb.txType == Coinbase && |cb.outputs| == 1
    ensures StepTx(LedgerOf(db), cb) == Ok(Seen(db, bal, map[]))
  {
    var o := cb.outputs[0];
    assert db.bal + map[] == db.bal && db.nonce + map[] == db.nonce;
    bal := OverlayCredit(db, map[], o.address, o.amount);
    assert cb.outputs[1..] == [];
    assert MintAll(db.bal, cb.outputs) == MintAll(Credit(db.bal, o.address, o.amount), cb.outputs[1..]);
  }

  method OverlaySpends(db: Db, bal0: Balances, txs: seq<Tx>)
    returns (r: Option<LedgerError>, bal: Balances, non: Nonces)
    requires forall i :: 0 <= i < |txs| ==> txs[i].txType != Coinbase && (txs[i].txType == Claim ==> txs[i].claim.Some?)
    ensures RunTxs(Seen(db, bal0, map[]), txs) == if r.None? then Ok(Seen(db, bal, non)) else Err(r.value)
  {
    bal, non := bal0, map[];
    for idx := 0 to |txs|
      invariant RunTxs(Seen(db, bal, non), txs[idx..]) == RunTxs(Seen(db, bal0, map[]), txs)
    {
      assert txs[idx..][1..] == txs[idx + 1..];
      r, bal, non := OverlaySpend(db, bal, non, txs[idx]);
      if r.Some? { return; }
    }
    r := None;
  }

  /** The tip simulation decides exactly as the reference interpreter run on the database's
      ledger, and then the overlay laid over the database is exactly the resulting ledger. */
  method ValidateBlockStateTip(db: Db, cfg: Config, b: Block)
    returns (r: Option<LedgerError>, bal: Balances, non: Nonces)
    requires BasicOk(cfg, b.txs)
    ensures RunTxs(LedgerOf(db), b.txs) == if r.None? then Ok(Seen(db, bal, non)) else Err(r.value)
  {
    bal := map[];
    var idx := 0;
    if cfg.issuance {
      bal := OverlayCoinbase(db, b.txs[0]);
      idx := 1;
    }
    assert Seen(db, map[], map[]) == LedgerOf(db);
    assert b.txs[0..] == b.txs;
    forall i | 0 <= i < |b.txs[idx..]| ensures SpendOk(cfg, b.txs[idx..][i]) {
      assert b.txs[idx..][i] == b.txs[idx + i];
    }
    r, bal, non := OverlaySpends(db, bal, b.txs[idx..]);
  }

  method SimCredits(sim0: Balances, outs: seq<TxOut>) returns (sim: Balances)
    ensures sim == CreditAll(sim0, outs)
  {
    sim := sim0;
    for i := 0 to |outs|
      invariant CreditAll(sim, outs[i..]) == CreditAll(sim0, outs)
    {
      assert outs[i..][1..] == outs[i + 1..];
      var o := outs[i];
      if o.address != "" {
        sim := sim[o.address := Balance(sim, o.address) + o.amount];
      } else if o.p != "" {
        sim := sim[Bucket(o.p) := Balance(sim, Bucket(o.p)) + o.amount];
      }
    }
  }

  method SimStep(bal0: Balances, non0: Nonces, tx: Tx)
    returns (r: Option<LedgerError>, bal: Balances, non: Nonces)
    ensures StepTx(Ledger(bal0, non0), tx) ==
            if r.None? then Ok(Ledger(bal, non)) else Err(r.value)
  {
    bal, non := bal0, non0;
    r := None;
    if tx.txType == Coinbase {
      for i := 0 to |tx.outputs|
        invariant MintAll(bal, tx.outputs[i..]) == MintAll(bal0, tx.outputs)
      {
        assert tx.outputs[i..][1..] == tx.outputs[i + 1..];
        bal := bal[tx.outputs[i].address := Balance(bal, tx.outputs[i].address) + tx.outputs[i].amount];
      }
      return;
    }
    var exp := NonceOf(non, tx.from) + 1;
    if tx.nonce != exp { r := Some(BadNonce); return; }
    if tx.txType == Claim && tx.claim.Some? {
      var c := tx.claim.value;
      var need := c.amount + tx.fee;
      var bb := Balance(bal, Bucket(c.p));
      if bb < need { r := Some(InsufficientBucket); return; }
      bal := bal[Bucket(c.p) := bb - need];
      bal := bal[c.to := Balance(bal, c.to) + c.amount];
      non := non[tx.from := tx.nonce];
      return;
    }
    var outTotal := SumOutputs(tx.outputs);
    var need := outTotal + tx.fee;
    if Balance(bal, tx.from) < need { r := Some(InsufficientFunds); return; }
    bal := bal[tx.from := Balance(bal, tx.from) - need];
    non := non[tx.from := tx.nonce];
    bal := SimCredits(bal, tx.outputs);
  }

  /** The fork simulation accepts exactly the blocks that keep the limits and the basic rules
      and that the reference interpreter accepts, and leaves exactly its ledger. */
  method ApplyBlockToSim(cfg: Config, b: Block, l0: Ledger) returns (ok: bool, l: Ledger)
    ensures ok <==> LimitsOk(cfg, b.txs) && BasicOk(cfg, b.txs) && RunTxs(l0, b.txs).Ok?
    ensures ok ==> RunTxs(l0, b.txs) == Ok(l)
  {
    l := l0;
    var e := ValidateLimits(cfg, b);
    if e.Some? { return false, l; }
    e := ValidateBlockBasic(cfg, b);
    if e.Some? { return false, l; }
    var bal, non := l0.bal, l0.nonce;
    for i := 0 to |b.txs|
      invariant RunTxs(Ledger(bal, non), b.txs[i..]) == RunTxs(l0, b.txs)
    {
      assert b.txs[i..][1..] == b.txs[i + 1..];
      var r;
      r, bal, non := SimStep(bal, non, b.txs[i]);
      if r.Some? { return false, Ledger(bal, non); }
    }
    return true, Ledger(bal, non);
  }
}

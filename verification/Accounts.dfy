/** What every account gains and loses by a transaction, written out on the transaction's own fields:
    addresses, one-time keys, amounts and fees. Both interpreters are held to it. */
module Accounts {
  import opened Wrappers
  import opened ChainTypes
  import opened LedgerSpec

  // ----- what the outputs say -----

  // All amounts, from the last output back.
  function Spent(outs: seq<TxOut>): int {
    if outs == [] then 0 else Spent(outs[..|outs| - 1]) + outs[|outs| - 1].amount
  }

  // This output is for account `id`: by address, or without one by its one-time key.
  predicate IsFor(o: TxOut, id: Id) {
    (o.address != "" && o.address == id) || (o.address == "" && o.p != "" && "otap:" + o.p == id)
  }

  function SentTo(outs: seq<TxOut>, id: Id): int {
    if outs == [] then 0
    else SentTo(outs[..|outs| - 1], id) + if IsFor(outs[|outs| - 1], id) then outs[|outs| - 1].amount else 0
  }

  // A coinbase goes to the address field alone.
  function MintedTo(outs: seq<TxOut>, id: Id): int {
    if outs == [] then 0
    else MintedTo(outs[..|outs| - 1], id) + if outs[|outs| - 1].address == id then outs[|outs| - 1].amount else 0
  }

  // Sent without an address to this one-time key.
  function SentToKey(outs: seq<TxOut>, p: string): int {
    if outs == [] then 0
    else
      var o := outs[|outs| - 1];
      SentToKey(outs[..|outs| - 1], p) + if o.address == "" && o.p == p then o.amount else 0
  }

  lemma {:induction false} SpentCons(outs: seq<TxOut>)
    requires outs != []
    ensures Spent(outs) == outs[0].amount + Spent(outs[1..])
    decreases |outs|
  {
    var n := |outs| - 1;
    if n > 0 {
      SpentCons(outs[..n]);
      assert outs[..n][1..] == outs[1..][..n - 1];
    }
  }

  lemma {:induction false} SentToCons(outs: seq<TxOut>, id: Id)
    requires outs != []
    ensures SentTo(outs, id) == (if IsFor(outs[0], id) then outs[0].amount else 0) + SentTo(outs[1..], id)
    decreases |outs|
  {
    var n := |outs| - 1;
    if n > 0 {
      SentToCons(outs[..n], id);
      assert outs[..n][1..] == outs[1..][..n - 1];
    }
  }

  lemma {:induction false} MintedToCons(outs: seq<TxOut>, id: Id)
    requires outs != []
    ensures MintedTo(outs, id) == (if outs[0].address == id then outs[0].amount else 0) + MintedTo(outs[1..], id)
    decreases |outs|
  {
    var n := |outs| - 1;
    if n > 0 {
      MintedToCons(outs[..n], id);
      assert outs[..n][1..] == outs[1..][..n - 1];
    }
  }

  // What no address is "otap:"-prefixed for is sent to the bucket by key alone.
  lemma {:induction false} BucketIsKey(outs: seq<TxOut>, p: string)
    requires p != "" && forall i :: 0 <= i < |outs| ==> outs[i].address != "otap:" + p
    ensures SentTo(outs, "otap:" + p) == SentToKey(outs, p)
    decreases |outs|
  {
    if outs != [] {
      var n := |outs| - 1;
      BucketIsKey(outs[..n], p);
      var o := outs[n];
      assert "otap:" + o.p == "otap:" + p <==> o.p == p by {
        assert ("otap:" + o.p)[5..] == o.p && ("otap:" + p)[5..] == p;
      }
    }
  }

  // ----- the interpreters' credits -----

  lemma {:induction false} AmountsAgree(outs: seq<TxOut>)
    ensures OutTotal(outs) == Spent(outs)
    decreases |outs|
  {
    if outs != [] {
      AmountsAgree(outs[1..]);
      SpentCons(outs);
    }
  }

  lemma {:induction false} CreditAllLaw(m: Balances, outs: seq<TxOut>, id: Id)
    ensures Balance(CreditAll(m, outs), id) == Balance(m, id) + SentTo(outs, id)
    decreases |outs|
  {
    if outs != [] {
      CreditAllLaw(CreditOut(m, outs[0]), outs[1..], id);
      SentToCons(outs, id);
    }
  }

  lemma {:induction false} MintAllLaw(m: Balances, outs: seq<TxOut>, id: Id)
    ensures Balance(MintAll(m, outs), id) == Balance(m, id) + MintedTo(outs, id)
    decreases |outs|
  {
    if outs != [] {
      MintAllLaw(Credit(m, outs[0].address, outs[0].amount), outs[1..], id);
      MintedToCons(outs, id);
    }
  }

  lemma {:induction false} DbCreditsLaw(l: Ledger, outs: seq<TxOut>, id: Id)
    requires DbCredits(l, outs).ok
    ensures Balance(DbCredits(l, outs).ledger.bal, id) == Balance(l.bal, id) + SentTo(outs, id)
    ensures DbCredits(l, outs).ledger.nonce == l.nonce
    decreases |outs|
  {
    if outs != [] {
      SentToCons(outs, id);
      match Destination(outs[0])
      case None => DbCreditsLaw(l, outs[1..], id);
      case Some(d) => DbCreditsLaw(AddBal(l, d, outs[0].amount).ledger, outs[1..], id);
    }
  }

  // ----- what a transaction means for an account -----

  predicate Claims(tx: Tx) { tx.txType == "otap_claim" && tx.claim.Some? }

  // A claim moves its amount from the key's bucket to its beneficiary, and the fee out of the bucket.
  function ClaimNet(c: OtapClaim, fee: int, id: Id): int {
    (if id == c.to then c.amount else 0) - if id == "otap:" + c.p then c.amount + fee else 0
  }

  // A transfer moves its outputs from the sender to where they go, and the fee out of the sender.
  function TransferNet(tx: Tx, id: Id): int {
    SentTo(tx.outputs, id) - if id == tx.from then Spent(tx.outputs) + tx.fee else 0
  }

  function Net(tx: Tx, id: Id): int {
    if tx.txType == "coinbase" then MintedTo(tx.outputs, id)
    else if Claims(tx) then ClaimNet(tx.claim.value, tx.fee, id)
    else TransferNet(tx, id)
  }

  // The database tells an issuing transaction by its missing sender.
  function DbNet(tx: Tx, id: Id): int {
    if Claims(tx) then ClaimNet(tx.claim.value, tx.fee, id)
    else if tx.from == "" then SentTo(tx.outputs, id)
    else TransferNet(tx, id)
  }

  // Who pays, and how much must be there.
  predicate Affords(l: Ledger, tx: Tx) {
    if Claims(tx) then Balance(l.bal, "otap:" + tx.claim.value.p) >= tx.claim.value.amount + tx.fee
    else Balance(l.bal, tx.from) >= Spent(tx.outputs) + tx.fee
  }

  /** A simulation accepts a spend exactly when its nonce is the next one and the payer, the sender or
      the claimed key's bucket, has the amount and the fee; a coinbase always. Then every account's
      balance moves by what the transaction's fields say, and the sender's nonce by one. */
  lemma StepLaw(l: Ledger, tx: Tx, id: Id)
    ensures StepTx(l, tx).Ok? <==>
            tx.txType == "coinbase" || (tx.nonce == NonceOf(l.nonce, tx.from) + 1 && Affords(l, tx))
    ensures StepTx(l, tx).Ok? ==> Balance(StepTx(l, tx).value.bal, id) == Balance(l.bal, id) + Net(tx, id)
    ensures StepTx(l, tx).Ok? ==>
      NonceOf(StepTx(l, tx).value.nonce, id) ==
      NonceOf(l.nonce, id) + (if tx.txType != "coinbase" && id == tx.from then 1 else 0)
  {
    AmountsAgree(tx.outputs);
    if tx.txType == "coinbase" {
      MintAllLaw(l.bal, tx.outputs, id);
    } else if !Claims(tx) {
      CreditAllLaw(Credit(l.bal, tx.from, -(OutTotal(tx.outputs) + tx.fee)), tx.outputs, id);
    }
  }

  /** Whatever the database applies moves every account by the same rule; it does not look at nonces,
      and records the transaction's own for its sender. */
  lemma DbLaw(l: Ledger, tx: Tx, id: Id)
    requires DbTx(l, tx).ok
    ensures Balance(DbTx(l, tx).ledger.bal, id) == Balance(l.bal, id) + DbNet(tx, id)
    ensures NonceOf(DbTx(l, tx).ledger.nonce, id) ==
            if id == tx.from && (Claims(tx) || tx.from != "") then tx.nonce else NonceOf(l.nonce, id)
  {
    AmountsAgree(tx.outputs);
    if !Claims(tx) {
      if tx.from == "" {
        DbCreditsLaw(l, tx.outputs, id);
      } else {
        var o := AddBal(l, tx.from, -(OutTotal(tx.outputs) + tx.fee));
        DbCreditsLaw(SetNonceIn(o.ledger, tx.from, tx.nonce), tx.outputs, id);
      }
    }
  }

  // ----- whole sequences -----

  function NetAll(txs: seq<Tx>, id: Id): int { if txs == [] then 0 else Net(txs[0], id) + NetAll(txs[1..], id) }

  function DbNetAll(txs: seq<Tx>, id: Id): int { if txs == [] then 0 else DbNet(txs[0], id) + DbNetAll(txs[1..], id) }

  /** Over any accepted sequence every balance moves by the sum of what its transactions say. */
  lemma {:induction false} RunLaw(l: Ledger, txs: seq<Tx>, id: Id)
    requires RunTxs(l, txs).Ok?
    ensures Balance(RunTxs(l, txs).value.bal, id) == Balance(l.bal, id) + NetAll(txs, id)
    decreases |txs|
  {
    if txs != [] {
      StepLaw(l, txs[0], id);
      RunLaw(StepTx(l, txs[0]).value, txs[1..], id);
    }
  }

  /** And over any sequence the database applies. */
  lemma {:induction false} DbRunLaw(l: Ledger, txs: seq<Tx>, id: Id)
    requires DbTxs(l, txs).ok
    ensures Balance(DbTxs(l, txs).ledger.bal, id) == Balance(l.bal, id) + DbNetAll(txs, id)
    decreases |txs|
  {
    if txs != [] {
      DbLaw(l, txs[0], id);
      DbRunLaw(DbTx(l, txs[0]).ledger, txs[1..], id);
    }
  }

  // ----- paying to a one-time key, and claiming it -----

  // A transfer whose outputs to key `p` go by key, and whose sender is not the bucket itself.
  predicate PaysKey(tx: Tx, p: string) {
    && tx.txType != "coinbase" && !Claims(tx) && tx.from != "" && p != "" && tx.from != "otap:" + p
    && forall i :: 0 <= i < |tx.outputs| ==> tx.outputs[i].address != "otap:" + p
  }

  /** An accepted transfer raises a key's bucket by exactly the amounts it sends to that key without an
      address, in the simulations and in the database. */
  lemma KeyIsPaid(l: Ledger, tx: Tx, p: string)
    requires PaysKey(tx, p)
    ensures StepTx(l, tx).Ok? ==>
      Balance(StepTx(l, tx).value.bal, "otap:" + p) == Balance(l.bal, "otap:" + p) + SentToKey(tx.outputs, p)
    ensures DbTx(l, tx).ok ==>
      Balance(DbTx(l, tx).ledger.bal, "otap:" + p) == Balance(l.bal, "otap:" + p) + SentToKey(tx.outputs, p)
  {
    BucketIsKey(tx.outputs, p);
    StepLaw(l, tx, "otap:" + p);
    if DbTx(l, tx).ok { DbLaw(l, tx, "otap:" + p); }
  }

  lemma TwoSteps(l: Ledger, a: Tx, b: Tx)
    ensures RunTxs(l, [a, b]) == match StepTx(l, a) case Err(e) => Err(e) case Ok(l') => StepTx(l', b)
    ensures DbTxs(l, [a, b]) == if DbTx(l, a).ok then DbTx(DbTx(l, a).ledger, b) else DbTx(l, a)
  {
    assert [a, b][1..] == [b] && [b][1..] == [];
    if StepTx(l, a).Ok? {
      var r := StepTx(StepTx(l, a).value, b);
      if r.Ok? { assert RunTxs(r.value, [b][1..]) == r; }
      assert RunTxs(StepTx(l, a).value, [b]) == r;
    }
    if DbTx(l, a).ok {
      var o := DbTx(DbTx(l, a).ledger, b);
      if o.ok { assert DbTxs(o.ledger, [b][1..]) == o; }
      assert DbTxs(DbTx(l, a).ledger, [b]) == o;
    }
  }

  // The next transaction of its sender claims from key `p`, for someone other than the bucket.
  predicate ClaimsKey(tx: Tx, p: string) {
    Claims(tx) && tx.claim.value.p == p && tx.claim.value.to != "otap:" + p
  }

  /** Pay, then claim: after a transfer to a key, a claim on the key is accepted exactly when its
      nonce is next and amount and fee are within the bucket, what was there and what was paid
      together; and it credits the beneficiary with the amount. */
  lemma PayThenClaim(l: Ledger, pay: Tx, claim: Tx, p: string)
    requires PaysKey(pay, p) && StepTx(l, pay).Ok? && ClaimsKey(claim, p)
    ensures var c, mid, r := claim.claim.value, StepTx(l, pay).value, RunTxs(l, [pay, claim]);
            && (r.Ok? <==>
                  && claim.nonce == NonceOf(mid.nonce, claim.from) + 1
                  && c.amount + claim.fee <= Balance(l.bal, "otap:" + p) + SentToKey(pay.outputs, p))
            && (r.Ok? ==> Balance(r.value.bal, c.to) == Balance(mid.bal, c.to) + c.amount)
  {
    TwoSteps(l, pay, claim);
    KeyIsPaid(l, pay, p);
    StepLaw(StepTx(l, pay).value, claim, claim.claim.value.to);
  }

  /** The same in the database, which does not look at the nonce but at every balance. */
  lemma DbPayThenClaim(l: Ledger, pay: Tx, claim: Tx, p: string)
    requires PaysKey(pay, p) && DbTx(l, pay).ok && ClaimsKey(claim, p)
    ensures var c, mid, o := claim.claim.value, DbTx(l, pay).ledger, DbTxs(l, [pay, claim]);
            && (o.ok <==>
                  && c.amount + claim.fee <= Balance(l.bal, "otap:" + p) + SentToKey(pay.outputs, p)
                  && Balance(mid.bal, c.to) + c.amount >= 0)
            && (o.ok ==> Balance(o.ledger.bal, c.to) == Balance(mid.bal, c.to) + c.amount)
  {
    TwoSteps(l, pay, claim);
    KeyIsPaid(l, pay, p);
    var c, mid := claim.claim.value, DbTx(l, pay).ledger;
    assert DbTx(mid, claim).ok <==>
           Balance(mid.bal, Bucket(p)) >= c.amount + claim.fee && Balance(mid.bal, c.to) + c.amount >= 0;
    if DbTx(mid, claim).ok { DbLaw(mid, claim, c.to); }
  }
}

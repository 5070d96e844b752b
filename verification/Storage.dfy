/** The node's key-value database: one field per key prefix, and the account
    primitives that every engine goes through (core/state/state.go). */
module Storage {
  import opened Wrappers
  import opened ChainTypes
  import opened LedgerSpec

  datatype VoteRecord = VoteRecord(height: nat, blockHash: Hash, chainId: string, pubkey: string, sig: string)

  datatype Validator = Validator(pubkey: string, weight: int, slashed: bool)

  datatype Participant = Participant(id: string, weight: int)

  class Db {
    var blocks: map<Hash, Block>      // blk:hash:
    var hashAt: map<nat, Hash>        // blk:height:
    var headers: map<Hash, Header>    // hdr:
    var work: map<Hash, nat>          // work:
    var tip: Option<Tip>              // meta:tip_height, meta:tip_block_id
    var tipWork: nat                  // meta:tip_work
    var anchor: Option<Tip>           // meta:finalized_height, meta:finalized_hash
    var finalized: Option<nat>        // finality:finalized_height
    var finalizedHash: Hash           // finality:finalized_hash
    var votes: map<(nat, string), VoteRecord>  // finality:vote:
    var validators: map<string, Validator>     // pos:validator:
    var headerTip: Option<Tip>        // hdrtip:
    var feePool: nat                  // fees:pool:participation
    var participants: seq<Participant>  // pop:participant:
    var scores: map<string, nat>      // pop:score:
    var bal: Balances                 // bal:
    var nonce: Nonces                 // nonce:
  }

  ghost function LedgerOf(db: Db): Ledger
    reads db
  {
    Ledger(db.bal, db.nonce)
  }

  method SetBalance(db: Db, id: Id, value: int)
    modifies db`bal
    ensures db.bal == old(db.bal)[id := if value < 0 then 0 else value]
  {
    var v := value;
    if v < 0 { v := 0; }
    db.bal := db.bal[id := v];
  }

  // Rejects rather than clamps, so the clamp in SetBalance is never taken from here.
  method AddBalance(db: Db, id: Id, delta: int) returns (ok: bool)
    modifies db`bal
    ensures var o := AddBal(old(LedgerOf(db)), id, delta); LedgerOf(db) == o.ledger && ok == o.ok
  {
    var next := Balance(db.bal, id) + delta;
    if next < 0 { return false; }
    SetBalance(db, id, next);
    return true;
  }

  method SetNonce(db: Db, id: Id, n: nat)
    modifies db`nonce
    ensures db.nonce == old(db.nonce)[id := n]
  {
    db.nonce := db.nonce[id := n];
  }
}

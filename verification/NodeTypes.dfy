/** What a node is configured with, and the value its chain database holds. */
module NodeTypes {
  import opened Wrappers
  import opened ChainTypes
  import opened LedgerSpec
  import opened Storage
  import opened BlockRules
  import opened StateReplay
  import opened Ancestry

  // The header hash and the difficulty rule are given functions.
  datatype Env = Env(
    cfg: Config, chainId: string, allocs: seq<Allocation>,
    hashOf: Header -> Hash,
    nextBits: (map<nat, Hash>, map<Hash, Block>, nat) -> Option<nat>)

  ghost predicate CollisionFree(env: Env) {
    forall a: Header, b: Header :: env.hashOf(a) == env.hashOf(b) ==> a == b
  }

  datatype Chain = Chain(
    blocks: map<Hash, Block>, hashAt: map<nat, Hash>, headers: map<Hash, Header>,
    work: map<Hash, nat>, tip: Option<Tip>, tipWork: nat, anchor: Option<Tip>, ledger: Ledger)

  ghost function ChainOf(db: Db): Chain
    reads db
  {
    Chain(db.blocks, db.hashAt, db.headers, db.work, db.tip, db.tipWork, db.anchor, LedgerOf(db))
  }

  function HeadersOf(blocks: map<Hash, Block>): Store { map h | h in blocks :: blocks[h].header }

  ghost predicate Keyed(env: Env, blocks: map<Hash, Block>) {
    forall h :: h in blocks ==> env.hashOf(blocks[h].header) == h
  }
}

/** Checking a block on a main-chain parent by snapshot and replay, in memory
    (ValidateBlockStateOnMainParent in core/node/block_validate_fork.go). */
module ForkReplay {
  import opened Wrappers
  import opened ChainTypes
  import opened LedgerSpec
  import opened NonceOrder
  import opened Storage
  import opened BlockRules
  import opened Simulation
  import opened StateReplay
  import opened NodeTypes

  function SimBlock(cfg: Config, l: Ledger, b: Block): Option<Ledger> {
    if LimitsOk(cfg, b.txs) && BasicOk(cfg, b.txs) && RunTxs(l, b.txs).Ok? then Some(RunTxs(l, b.txs).value) else None
  }

  // Replays indexed heights, and stops quietly at the first one that is not stored.
  function SimMain(cfg: Config, blocks: map<Hash, Block>, hashAt: map<nat, Hash>, l: Ledger, from: nat, to: nat): Option<Ledger>
    decreases to + 1 - from
  {
    if from > to || BlockAt(blocks, hashAt, from).None? then Some(l)
    else
      match SimBlock(cfg, l, BlockAt(blocks, hashAt, from).value)
      case None => None
      case Some(l') => SimMain(cfg, blocks, hashAt, l', from + 1, to)
  }

  // Genesis allocations are added whenever no snapshot above height zero was read.
  function SimStart(snaps: seq<Snapshot>, allocs: seq<Allocation>, target: nat): Snapshot {
    match Pick(snaps, target)
    case None => Snapshot(0, Funded(Ledger(map[], map[]), allocs))
    case Some(s) => if s.height == 0 then Snapshot(0, Funded(s.ledger, allocs)) else s
  }

  /** Where the replay starts: on the highest snapshot at or below the parent. If there is none above
      height zero the allocations are added, also on top of a snapshot of height zero. */
  lemma SimStartReads(snaps: seq<Snapshot>, allocs: seq<Allocation>, target: nat, id: Id)
    ensures var start := SimStart(snaps, allocs, target);
            match Pick(snaps, target)
            case None => start.height == 0 && Balance(start.ledger.bal, id) == Allocated(allocs, id) && start.ledger.nonce == map[]
            case Some(s) =>
              && start.height == s.height && start.ledger.nonce == s.ledger.nonce
              && Balance(start.ledger.bal, id) == Balance(s.ledger.bal, id) + if s.height == 0 then Allocated(allocs, id) else 0
  {
    FundedReads(Ledger(map[], map[]), allocs, id);
    if Pick(snaps, target).Some? { FundedReads(Pick(snaps, target).value.ledger, allocs, id); }
  }

  // The block is checked only when its parent is the indexed block below it and not too deep.
  predicate OnMainParent(env: Env, c: Chain, b: Block) {
    && b.header.height > 0
    && BlockAt(c.blocks, c.hashAt, b.header.height - 1).Some?
    && env.hashOf(BlockAt(c.blocks, c.hashAt, b.header.height - 1).value.header) == b.header.prev
    && var tipH := if c.tip.Some? then c.tip.value.height else 0;
       tipH - (b.header.height - 1) <= env.cfg.maxReplayBlocks
  }

  function ReplayedVerdict(env: Env, c: Chain, start: Snapshot, b: Block): bool
    requires b.header.height > 0
  {
    match SimMain(env.cfg, c.blocks, c.hashAt, start.ledger, start.height + 1, b.header.height - 1)
    case None => false
    case Some(l) => SimBlock(env.cfg, l, b).Some?
  }

  predicate ForkVerdict(env: Env, c: Chain, snaps: seq<Snapshot>, b: Block) {
    env.cfg.validateForkState && OnMainParent(env, c, b) ==>
      ReplayedVerdict(env, c, SimStart(snaps, env.allocs, b.header.height - 1), b)
  }

  // ----- the snapshot makes no difference -----

  ghost predicate SimTruthful(env: Env, c: Chain, s: Snapshot) {
    && s.height > 0
    && (forall h :: 1 <= h <= s.height ==> BlockAt(c.blocks, c.hashAt, h).Some?)
    && SimMain(env.cfg, c.blocks, c.hashAt, Genesis(env.allocs), 1, s.height) == Some(s.ledger)
  }

  lemma {:induction false} SimMainSplit(env: Env, c: Chain, l: Ledger, from: nat, mid: nat, to: nat)
    requires from <= mid + 1 && mid <= to
    requires forall h :: from <= h <= mid ==> BlockAt(c.blocks, c.hashAt, h).Some?
    ensures SimMain(env.cfg, c.blocks, c.hashAt, l, from, to) ==
            match SimMain(env.cfg, c.blocks, c.hashAt, l, from, mid)
            case None => None
            case Some(l') => SimMain(env.cfg, c.blocks, c.hashAt, l', mid + 1, to)
    decreases mid + 1 - from
  {
    if from <= mid {
      match SimBlock(env.cfg, l, BlockAt(c.blocks, c.hashAt, from).value)
      case None =>
      case Some(l') => SimMainSplit(env, c, l', from + 1, mid, to);
    }
  }

  /** With truthful snapshots the verdict is the one a replay from genesis would give. */
  lemma ForkVerdictIgnoresSnapshots(env: Env, c: Chain, snaps: seq<Snapshot>, b: Block)
    requires DistinctAddresses(env.allocs) && b.header.height > 0
    requires forall s :: s in snaps && s.height < b.header.height ==> SimTruthful(env, c, s)
    ensures ReplayedVerdict(env, c, SimStart(snaps, env.allocs, b.header.height - 1), b)
            == ReplayedVerdict(env, c, Snapshot(0, Genesis(env.allocs)), b)
  {
    var parentH := b.header.height - 1;
    GenesisWaysAgree(env.allocs);
    PickIsHighest(snaps, parentH);
    if Pick(snaps, parentH).Some? {
      SimMainSplit(env, c, Genesis(env.allocs), 1, Pick(snaps, parentH).value.height, parentH);
    }
  }

  // ----- which blocks are judged, and how -----

  // The blocks indexed at heights 1 to n.
  function IndexedBlocks(c: Chain, n: nat): (bs: seq<Block>)
    requires forall h :: 1 <= h <= n ==> h in c.hashAt && c.hashAt[h] in c.blocks
    ensures |bs| == n && forall i :: 0 <= i < n ==> bs[i] == c.blocks[c.hashAt[i + 1]]
  {
    seq(n, i requires 0 <= i < n => c.blocks[c.hashAt[i + 1]])
  }

  ghost predicate AllLawful(cfg: Config, bs: seq<Block>) {
    forall i :: 0 <= i < |bs| ==> LimitsOk(cfg, bs[i].txs) && BasicOk(cfg, bs[i].txs)
  }

  lemma {:induction false} SimMainIff(cfg: Config, blocks: map<Hash, Block>, hashAt: map<nat, Hash>, l: Ledger, from: nat, bs: seq<Block>)
    requires from > 0 && forall i :: 0 <= i < |bs| ==> BlockAt(blocks, hashAt, from + i) == Some(bs[i])
    ensures var r := SimMain(cfg, blocks, hashAt, l, from, from + |bs| - 1);
            && (r.Some? <==> AllLawful(cfg, bs) && RunBlocks(l, bs).Ok?)
            && (r.Some? ==> RunBlocks(l, bs) == Ok(r.value))
    decreases |bs|
  {
    if bs != [] {
      var rest := bs[1..];
      assert BlockAt(blocks, hashAt, from + 0) == Some(bs[0]);
      forall i | 0 <= i < |rest| ensures BlockAt(blocks, hashAt, from + 1 + i) == Some(rest[i]) {
        assert BlockAt(blocks, hashAt, from + (i + 1)) == Some(bs[i + 1]);
      }
      LawfulCons(cfg, bs);
      if SimBlock(cfg, l, bs[0]).Some? { SimMainIff(cfg, blocks, hashAt, RunTxs(l, bs[0].txs).value, from + 1, rest); }
    }
  }

  lemma LawfulCons(cfg: Config, bs: seq<Block>)
    requires bs != []
    ensures AllLawful(cfg, bs) <==> LimitsOk(cfg, bs[0].txs) && BasicOk(cfg, bs[0].txs) && AllLawful(cfg, bs[1..])
  {
    if AllLawful(cfg, bs[1..]) && LimitsOk(cfg, bs[0].txs) && BasicOk(cfg, bs[0].txs) {
      forall i | 0 <= i < |bs| ensures LimitsOk(cfg, bs[i].txs) && BasicOk(cfg, bs[i].txs) {
        if i > 0 { assert bs[i] == bs[1..][i - 1]; }
      }
    }
  }

  lemma {:induction false} RunBlocksAppend(l: Ledger, bs: seq<Block>, b: Block)
    ensures RunBlocks(l, bs + [b]) == match RunBlocks(l, bs) case Err(e) => Err(e) case Ok(l') => RunTxs(l', b.txs)
    decreases |bs|
  {
    if bs == [] {
      assert [] + [b] == [b] && [b][1..] == [];
      var r := RunTxs(l, b.txs);
      if r.Ok? { assert RunBlocks(r.value, [b][1..]) == r; }
    } else {
      assert (bs + [b])[1..] == bs[1..] + [b];
      var r := RunTxs(l, bs[0].txs);
      if r.Ok? { RunBlocksAppend(r.value, bs[1..], b); }
    }
  }

  // The block comes above genesis, its parent is the block stored at the index's height below it,
  // and that is at most the configured number of blocks under the tip.
  ghost predicate Judged(env: Env, c: Chain, b: Block) {
    && env.cfg.validateForkState && b.header.height > 0
    && b.header.height - 1 in c.hashAt && c.hashAt[b.header.height - 1] in c.blocks
    && env.hashOf(c.blocks[c.hashAt[b.header.height - 1]].header) == b.header.prev
    && (c.tip.Some? ==> c.tip.value.height - (b.header.height - 1) <= env.cfg.maxReplayBlocks)
  }

  /** A block that is judged, on a chain indexed without gaps and with truthful snapshots, passes exactly
      when it and every indexed block up to its parent keep limits and rules, and all of them run
      one on the ledger of the other from genesis. */
  lemma ForkVerdictIff(env: Env, c: Chain, snaps: seq<Snapshot>, b: Block)
    requires Judged(env, c, b) && DistinctAddresses(env.allocs)
    requires forall h :: 1 <= h < b.header.height ==> h in c.hashAt && c.hashAt[h] in c.blocks
    requires forall s :: s in snaps && s.height < b.header.height ==> SimTruthful(env, c, s)
    ensures ForkVerdict(env, c, snaps, b) <==>
            var bs := IndexedBlocks(c, b.header.height - 1) + [b];
            AllLawful(env.cfg, bs) && RunBlocks(Genesis(env.allocs), bs).Ok?
  {
    var n := b.header.height - 1;
    var main := IndexedBlocks(c, n);
    ForkVerdictIgnoresSnapshots(env, c, snaps, b);
    SimMainIff(env.cfg, c.blocks, c.hashAt, Genesis(env.allocs), 1, main);
    RunBlocksAppend(Genesis(env.allocs), main, b);
    LawfulAppend(env.cfg, main, b);
  }

  lemma LawfulAppend(cfg: Config, bs: seq<Block>, b: Block)
    ensures AllLawful(cfg, bs + [b]) <==> AllLawful(cfg, bs) && LimitsOk(cfg, b.txs) && BasicOk(cfg, b.txs)
  {
    var all := bs + [b];
    if AllLawful(cfg, all) {
      forall i | 0 <= i < |bs| ensures LimitsOk(cfg, bs[i].txs) && BasicOk(cfg, bs[i].txs) { assert all[i] == bs[i]; }
      assert all[|bs|] == b;
    }
  }

  /** Any other block passes unjudged. */
  lemma UnjudgedPasses(env: Env, c: Chain, snaps: seq<Snapshot>, b: Block)
    requires !Judged(env, c, b)
    ensures ForkVerdict(env, c, snaps, b)
  {
  }

  // ----- as the source runs it -----

  method FundAll(l0: Ledger, allocs: seq<Allocation>) returns (l: Ledger)
    ensures l == Funded(l0, allocs)
  {
    var bal := l0.bal;
    for i := 0 to |allocs|
      invariant Funded(l0, allocs[..i]) == l0.(bal := bal)
    {
      assert allocs[..i + 1][..i] == allocs[..i];
      bal := bal[allocs[i].address := Balance(bal, allocs[i].address) + allocs[i].amount];
    }
    assert allocs[..|allocs|] == allocs;
    l := l0.(bal := bal);
  }

  method SimReplay(db: Db, cfg: Config, l0: Ledger, from: nat, to: nat) returns (ok: bool, l: Ledger)
    ensures SimMain(cfg, db.blocks, db.hashAt, l0, from, to) == if ok then Some(l) else None
  {
    l := l0;
    var h := from;
    while h <= to
      invariant SimMain(cfg, db.blocks, db.hashAt, l, h, to) == SimMain(cfg, db.blocks, db.hashAt, l0, from, to)
    {
      if h !in db.hashAt || db.hashAt[h] !in db.blocks { break; }
      ok, l := ApplyBlockToSim(cfg, db.blocks[db.hashAt[h]], l);
      if !ok { return; }
      h := h + 1;
    }
    ok := true;
  }

  method LoadStart(snaps: seq<Snapshot>, allocs: seq<Allocation>, target: nat) returns (l: Ledger, snapH: nat)
    ensures SimStart(snaps, allocs, target) == Snapshot(snapH, l)
  {
    l, snapH := Ledger(map[], map[]), 0;
    var best := PickSnapshot(snaps, target);
    if best.Some? { l, snapH := best.value.ledger, best.value.height; }
    if snapH == 0 { l := FundAll(l, allocs); }
  }

  method NeedsReplay(db: Db, env: Env, b: Block) returns (needed: bool)
    ensures needed == (env.cfg.validateForkState && OnMainParent(env, ChainOf(db), b))
  {
    if !env.cfg.validateForkState { return false; }
    if b.header.height == 0 { return false; }
    var parentH := b.header.height - 1;
    if parentH !in db.hashAt || db.hashAt[parentH] !in db.blocks { return false; }
    if env.hashOf(db.blocks[db.hashAt[parentH]].header) != b.header.prev { return false; }
    var tipH := if db.tip.Some? then db.tip.value.height else 0;
    return !(tipH > parentH && tipH - parentH > env.cfg.maxReplayBlocks);
  }

  /** A block on a main-chain parent is judged on the replayed ledger; any other passes. */
  method ValidateBlockStateOnMainParent(db: Db, env: Env, snaps: seq<Snapshot>, b: Block) returns (ok: bool)
    ensures ok == ForkVerdict(env, ChainOf(db), snaps, b)
  {
    var needed := NeedsReplay(db, env, b);
    if !needed { return true; }
    var parentH := b.header.height - 1;
    var l, snapH := LoadStart(snaps, env.allocs, parentH);
    ok, l := SimReplay(db, env.cfg, l, snapH + 1, parentH);
    if !ok { return; }
    ok, l := ApplyBlockToSim(env.cfg, b, l);
  }
}

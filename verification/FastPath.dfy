/** What the tip's ancestry is worth when the fast path never applies a block to the ledger:
    when the ledger still fits the tip, how a block gets in twice, and the runs in which the
    ancestry is free of replays all the same. */
module FastPath {
  import opened Wrappers
  import opened ChainTypes
  import opened LedgerSpec
  import opened BlockRules
  import opened NonceOrder
  import opened StateReplay
  import opened Ancestry
  import opened NodeTypes
  import opened ForkReplay
  import opened BlockSubmission
  import opened Reorg
  import opened MainChain
  import E = EngineAgreement

  // ----- when the ledger still fits -----

  lemma {:induction false} SpendIsSeen(txs: seq<Tx>, i: nat)
    requires i < |txs| && txs[i].txType != Coinbase
    ensures |NoncesOf(txs, txs[i].from)| > 0
    decreases i
  {
    if i > 0 { SpendIsSeen(txs[1..], i - 1); }
  }

  lemma CreditNothingIff(m: Balances, id: Id, v: int)
    ensures Credit(m, id, v) == m <==> id in m && v == 0
  {
    assert id in m ==> Credit(m, id, v)[id] == m[id] + v;
  }

  /** Running an accepted block leaves the ledger as it was exactly when the block holds no spend
      and mints nothing to an account that is already listed. */
  lemma BlockLeavesLedgerIff(cfg: Config, l: Ledger, txs: seq<Tx>)
    requires BasicOk(cfg, txs) && RunTxs(l, txs).Ok?
    ensures RunTxs(l, txs).value == l <==>
            |txs| == FirstSpend(cfg) && (cfg.issuance ==> cfg.blockReward == 0 && txs[0].outputs[0].address in l.bal)
  {
    if |txs| > FirstSpend(cfg) {
      var i := FirstSpend(cfg);
      assert SpendOk(cfg, txs[i]);
      SpendIsSeen(txs, i);
      RunNonces(l, txs, txs[i].from);
    } else if cfg.issuance {
      var cb, o := txs[0], txs[0].outputs[0];
      assert txs[1..] == [] && cb.outputs[1..] == [];
      assert MintAll(l.bal, cb.outputs) == MintAll(Credit(l.bal, o.address, o.amount), cb.outputs[1..]);
      assert RunTxs(l, txs) == RunTxs(StepTx(l, cb).value, txs[1..]);
      CreditNothingIff(l.bal, o.address, o.amount);
    }
  }

  /** The fast path keeps the ledger, so after it the ledger fits the new tip, given that it
      fitted the old one, exactly for such blocks. */
  lemma FastPathFitsIff(env: Env, c: Chain, snaps: seq<Snapshot>, b: Block)
    requires Admissible(env, c, snaps, b) && Connects(env, c, b) && ExtendsTip(c, b) && RunTxs(c.ledger, b.txs).Ok?
    ensures Submit(env, c, snaps, b) == (Advanced(env, c, b), true)
    ensures Advanced(env, c, b).ledger == RunTxs(c.ledger, b.txs).value <==>
            && |b.txs| == FirstSpend(env.cfg)
            && (env.cfg.issuance ==> env.cfg.blockReward == 0 && b.txs[0].outputs[0].address in c.ledger.bal)
  {
    BlockLeavesLedgerIff(env.cfg, c.ledger, b.txs);
  }

  /** So a block's transactions are accepted again on top of it: without fork validation, every
      admissible child of an accepted tip with the same transactions becomes the tip, and the
      ledger has seen neither. */
  lemma SameTransactionsAgain(env: Env, c: Chain, snaps: seq<Snapshot>, b1: Block, b2: Block)
    requires Admissible(env, c, snaps, b1) && Connects(env, c, b1) && ExtendsTip(c, b1) && RunTxs(c.ledger, b1.txs).Ok?
    requires b2.txs == b1.txs && b2.header.prev == env.hashOf(b1.header) && b2.header.height == b1.header.height + 1
    requires Admissible(env, Advanced(env, c, b1), snaps, b2) && Connects(env, Advanced(env, c, b1), b2)
    ensures Submit(env, c, snaps, b1) == (Advanced(env, c, b1), true)
    ensures var c2 := Advanced(env, Advanced(env, c, b1), b2);
            && Submit(env, Advanced(env, c, b1), snaps, b2) == (c2, true)
            && c2.tip == Some(Tip(b2.header.height, env.hashOf(b2.header))) && c2.ledger == c.ledger
  {
  }

  // ----- ancestries that run -----

  lemma {:induction false} PathExists(s: Store, tip: Hash, from: nat)
    requires Closed(s) && tip in s
    ensures PathUp(s, tip, from).Some?
    decreases Rank(s, tip)
  {
    if s[tip].height > from { PathExists(s, s[tip].prev, from); }
  }

  lemma {:induction false} PathStable(s: Store, bigger: Store, tip: Hash, from: nat)
    requires Closed(s) && Linked(bigger) && tip in s && (forall h :: h in s ==> h in bigger && bigger[h] == s[h])
    ensures PathUp(bigger, tip, from) == PathUp(s, tip, from)
    decreases Rank(s, tip)
  {
    if s[tip].height > from { PathStable(s, bigger, s[tip].prev, from); }
  }

  // The blocks from height one up to a stored block.
  ghost function AncestryOf(blocks: map<Hash, Block>, tip: Hash): (bs: seq<Block>)
    requires Closed(HeadersOf(blocks)) && tip in blocks
  {
    PathExists(HeadersOf(blocks), tip, 1);
    BlocksAlong(blocks, PathUp(HeadersOf(blocks), tip, 1).value)
  }

  // Every block of the ancestry is accepted on the ledger its parent left.
  ghost predicate Runs(env: Env, blocks: map<Hash, Block>, tip: Hash)
    requires Closed(HeadersOf(blocks)) && tip in blocks
  {
    RunBlocks(Genesis(env.allocs), AncestryOf(blocks, tip)).Ok?
  }

  // ----- blocks that the fork validation really screens -----

  // The parent is the indexed block, within reach, with its ancestry indexed below it, and the
  // snapshots below are truthful.
  ghost predicate Screened(env: Env, c: Chain, snaps: seq<Snapshot>, b: Block) {
    && env.cfg.validateForkState && DistinctAddresses(env.allocs) && Closed(HeadersOf(c.blocks))
    && OnMainParent(env, c, b) && b.header.prev in c.blocks
    && c.blocks[b.header.prev].header.height == b.header.height - 1
    && Follows(c, Tip(b.header.height - 1, b.header.prev), 1)
    && forall s :: s in snaps && s.height < b.header.height ==> SimTruthful(env, c, s)
  }

  lemma ParentIndexed(c: Chain, t: Tip)
    requires Closed(HeadersOf(c.blocks)) && Follows(c, t, 1) && t.hash in c.blocks && c.blocks[t.hash].header.height == t.height
    ensures AllIndexed(c.blocks, c.hashAt, t.height)
    ensures PathUp(HeadersOf(c.blocks), t.hash, 1) == Some(Indexed(c.hashAt, t.height))
  {
    if t.height > 0 {
      FollowingIsAncestry(c, t);
    } else {
      assert Indexed(c.hashAt, 0) == [];
    }
  }

  /** A screened block is admitted only if its whole ancestry runs with it on top. */
  lemma ScreenedRuns(env: Env, c: Chain, snaps: seq<Snapshot>, b: Block)
    requires Screened(env, c, snaps, b) && Admissible(env, c, snaps, b)
    ensures RunBlocks(Genesis(env.allocs), AncestryOf(c.blocks, b.header.prev) + [b]).Ok?
  {
    ParentIndexed(c, Tip(b.header.height - 1, b.header.prev));
    ForkVerdictIff(env, c, snaps, b);
    assert AncestryOf(c.blocks, b.header.prev) == IndexedBlocks(c, b.header.height - 1);
  }

  // ----- storing a block leaves other ancestries alone -----

  lemma SameBlocksAlong(env: Env, blocks: map<Hash, Block>, t: Tip, b: Block, p: seq<Hash>)
    requires Keyed(env, blocks) && Linked(HeadersOf(blocks)) && PathUp(HeadersOf(blocks), t.hash, 1) == Some(p)
    requires var h := env.hashOf(b.header);
             AncestorAt(HeadersOf(blocks), t.hash, b.header.height) == Some(h) ==> blocks[h] == b
    requires CollisionFree(env)
    ensures AllStored(blocks, p) && AllStored(blocks[env.hashOf(b.header) := b], p)
    ensures BlocksAlong(blocks[env.hashOf(b.header) := b], p) == BlocksAlong(blocks, p)
  {
    var s, h := HeadersOf(blocks), env.hashOf(b.header);
    PathIsAncestry(s, t.hash, 1);
    forall i | 0 <= i < |p| ensures p[i] in blocks && blocks[h := b][p[i]] == blocks[p[i]] {
      assert AncestorAt(s, t.hash, 1 + i) == Some(p[i]);
      if p[i] == h { assert env.hashOf(blocks[h].header) == env.hashOf(b.header); }
    }
  }

  lemma AncestryKept(env: Env, genesis: Hash, c: Chain, b: Block, t: Tip)
    requires CollisionFree(env) && Tree(env, genesis, c) && Connects(env, c, b) && b.header.height > 0
    requires t.hash in c.blocks && c.blocks[t.hash].header.height == t.height
    requires var h := env.hashOf(b.header);
             AncestorAt(HeadersOf(c.blocks), t.hash, b.header.height) == Some(h) ==> h in c.blocks && c.blocks[h].txs == b.txs
    ensures Closed(HeadersOf(Stored(env, c, b).blocks))
    ensures AncestryOf(Stored(env, c, b).blocks, t.hash) == AncestryOf(c.blocks, t.hash)
  {
    var s, h := HeadersOf(c.blocks), env.hashOf(b.header);
    StoredGrows(env, genesis, c, b);
    PathStable(s, HeadersOf(Stored(env, c, b).blocks), t.hash, 1);
    PathExists(s, t.hash, 1);
    if h in c.blocks { assert env.hashOf(c.blocks[h].header) == env.hashOf(b.header); }
    SameBlocksAlong(env, c.blocks, t, b, PathUp(s, t.hash, 1).value);
  }

  lemma ChildBlocks(blocks: map<Hash, Block>, h: Hash)
    requires Closed(HeadersOf(blocks)) && h in blocks && blocks[h].header.height > 0
    ensures blocks[h].header.prev in blocks
    ensures AncestryOf(blocks, h) == AncestryOf(blocks, blocks[h].header.prev) + [blocks[h]]
  {
    var s := HeadersOf(blocks);
    assert h in s && s[h].prev in s;
    PathExists(s, h, 1);
    PathExists(s, s[h].prev, 1);
    assert PathUp(s, h, 1).value == PathUp(s, s[h].prev, 1).value + [h];
  }

  lemma ChildAncestry(env: Env, genesis: Hash, c: Chain, b: Block)
    requires CollisionFree(env) && Tree(env, genesis, c) && Connects(env, c, b) && b.header.height > 0
    ensures Closed(HeadersOf(Stored(env, c, b).blocks))
    ensures AncestryOf(Stored(env, c, b).blocks, env.hashOf(b.header)) == AncestryOf(c.blocks, b.header.prev) + [b]
  {
    StoredGrows(env, genesis, c, b);
    AncestryKept(env, genesis, c, b, Tip(b.header.height - 1, b.header.prev));
    ChildBlocks(Stored(env, c, b).blocks, env.hashOf(b.header));
  }

  // ----- runs -----

  // A submission that does no harm: a block that moves the tip was screened, and one that does
  // not move it rewrites no block of the tip's ancestry with other transactions.
  ghost predicate Harmless(env: Env, c: Chain, snaps: seq<Snapshot>, b: Block)
    requires Closed(HeadersOf(c.blocks)) && c.tip.Some?
  {
    Admissible(env, c, snaps, b) && Connects(env, c, b) && b.header.height > 0 ==>
      if Submit(env, c, snaps, b).0.tip != c.tip then Screened(env, c, snaps, b) else !Rewrites(env, c, b)
  }

  // The block has the hash of one on the tip's chain, and other transactions.
  ghost predicate Rewrites(env: Env, c: Chain, b: Block)
    requires Closed(HeadersOf(c.blocks)) && c.tip.Some?
  {
    var h := env.hashOf(b.header);
    AncestorAt(HeadersOf(c.blocks), c.tip.value.hash, b.header.height) == Some(h) && h in c.blocks && c.blocks[h].txs != b.txs
  }

  lemma ChooseTip(env: Env, c: Chain, snaps: seq<Snapshot>, b: Block, c': Chain, ok: bool)
    requires Choose(env, c, snaps, b) == (c', ok)
    ensures c'.blocks == Stored(env, c, b).blocks
    ensures c'.tip == c.tip || c'.tip == Some(Tip(b.header.height, env.hashOf(b.header)))
  {
  }

  lemma SubmitRuns(env: Env, genesis: Hash, c: Chain, accepted: set<Hash>, snaps: seq<Snapshot>, b: Block)
    requires CollisionFree(env) && Inv(env, genesis, c, accepted) && Runs(env, c.blocks, c.tip.value.hash)
    requires Harmless(env, c, snaps, b)
    ensures var c' := Submit(env, c, snaps, b).0;
            && Closed(HeadersOf(c'.blocks)) && c'.tip.Some? && c'.tip.value.hash in c'.blocks
            && Runs(env, c'.blocks, c'.tip.value.hash)
  {
    if Admissible(env, c, snaps, b) && b.header.height > 0 && Connects(env, c, b) {
      var (c', ok) := Choose(env, c, snaps, b);
      assert Submit(env, c, snaps, b) == (c', ok);
      ChooseTip(env, c, snaps, b, c', ok);
      if c'.tip != c.tip {
        ScreenedRuns(env, c, snaps, b);
        ChildAncestry(env, genesis, c, b);
      } else {
        AncestryKept(env, genesis, c, b, c.tip.value);
      }
    }
  }

  ghost predicate HarmlessRun(env: Env, c: Chain, events: seq<Event>)
    decreases |events|
  {
    events != [] ==>
      && Allowed(c, events[0])
      && (events[0].Submitted? ==> Closed(HeadersOf(c.blocks)) && c.tip.Some? && Harmless(env, c, events[0].snaps, events[0].block))
      && HarmlessRun(env, After(env, c, events[0]), events[1..])
  }

  lemma {:induction false} HarmlessRunKeeps(env: Env, genesis: Hash, c: Chain, accepted: set<Hash>, events: seq<Event>)
    requires CollisionFree(env) && Inv(env, genesis, c, accepted) && Runs(env, c.blocks, c.tip.value.hash) && HarmlessRun(env, c, events)
    ensures var (c', accepted') := Run(env, c, accepted, events);
            Inv(env, genesis, c', accepted') && Runs(env, c'.blocks, c'.tip.value.hash)
    decreases |events|
  {
    if events != [] {
      var e := events[0];
      EventKeepsInv(env, genesis, c, accepted, e);
      match e {
        case Submitted(b, snaps) => SubmitRuns(env, genesis, c, accepted, snaps, b);
        case Finalised(_) =>
      }
      HarmlessRunKeeps(env, genesis, After(env, c, e), accepted + Taken(env, c, e), events[1..]);
    }
  }

  lemma RunsReplayFree(env: Env, blocks: map<Hash, Block>, tip: Hash)
    requires Closed(HeadersOf(blocks)) && tip in blocks && Runs(env, blocks, tip)
    ensures ReplayFree(Flatten(AncestryOf(blocks, tip)))
  {
    var bs, g := AncestryOf(blocks, tip), Genesis(env.allocs);
    var txs := Flatten(bs);
    RunBlocksFlat(g, bs);
    forall i, j | 0 <= i < j < |txs| && txs[i].txType != Coinbase && SpentBy(txs[j], txs[i].from) ensures txs[i].nonce < txs[j].nonce {
      NoReplay(g, txs, i, j);
    }
  }

  /** In every run from genesis in which each block that moves the tip was screened by the fork
      validation, and no stored block of the tip's ancestry is rewritten, the tip's ancestry is
      accepted block by block from genesis, and no sender uses a nonce twice in it. */
  lemma AncestryIsReplayFree(env: Env, g: Block, l: Ledger, events: seq<Event>)
    requires CollisionFree(env) && g.header.height == 0 && HarmlessRun(env, GenesisChain(env, g, l), events)
    ensures var c := Run(env, GenesisChain(env, g, l), {}, events).0;
            && Closed(HeadersOf(c.blocks)) && c.tip.Some? && c.tip.value.hash in c.blocks
            && Runs(env, c.blocks, c.tip.value.hash)
            && ReplayFree(Flatten(AncestryOf(c.blocks, c.tip.value.hash)))
  {
    var c0, genesis := GenesisChain(env, g, l), env.hashOf(g.header);
    GenesisInv(env, g, l);
    GenesisRuns(env, g, l);
    HarmlessRunKeeps(env, genesis, c0, {}, events);
    var c := Run(env, c0, {}, events).0;
    RunsReplayFree(env, c.blocks, c.tip.value.hash);
  }

  lemma GenesisRuns(env: Env, g: Block, l: Ledger)
    requires g.header.height == 0
    ensures var c := GenesisChain(env, g, l);
            Closed(HeadersOf(c.blocks)) && c.tip.value.hash in c.blocks && Runs(env, c.blocks, c.tip.value.hash)
  {
    var c, h := GenesisChain(env, g, l), env.hashOf(g.header);
    assert HeadersOf(c.blocks) == map[h := g.header];
    assert PathUp(HeadersOf(c.blocks), h, 1) == Some([]);
    assert AncestryOf(c.blocks, h) == [];
  }

  // ----- linear runs -----

  // Every block that connects extends the tip, and the snapshots on disk are truthful.
  ghost predicate Linear(env: Env, c: Chain, e: Event) {
    e.Submitted? ==>
      && (Connects(env, c, e.block) ==> ExtendsTip(c, e.block))
      && forall s :: s in e.snaps && s.height < e.block.header.height ==> SimTruthful(env, c, s)
  }

  ghost predicate LinearRun(env: Env, c: Chain, events: seq<Event>)
    decreases |events|
  {
    events != [] ==> Allowed(c, events[0]) && Linear(env, c, events[0]) && LinearRun(env, After(env, c, events[0]), events[1..])
  }

  // The index starts in genesis and follows the tip.
  ghost predicate InStep(env: Env, genesis: Hash, c: Chain, accepted: set<Hash>) {
    Inv(env, genesis, c, accepted) && Follows(c, c.tip.value, 1) && 0 in c.hashAt && c.hashAt[0] == genesis
  }

  lemma LinearIsHarmless(env: Env, genesis: Hash, c: Chain, accepted: set<Hash>, snaps: seq<Snapshot>, b: Block)
    requires CollisionFree(env) && InStep(env, genesis, c, accepted)
    requires env.cfg.validateForkState && DistinctAddresses(env.allocs) && Linear(env, c, Submitted(b, snaps))
    ensures Harmless(env, c, snaps, b)
  {
    if Connects(env, c, b) && b.header.height > 0 {
      var t := c.tip.value;
      assert t.hash in c.blocks && env.hashOf(c.blocks[t.hash].header) == t.hash;
      if t.height > 0 {
        assert AncestorAt(HeadersOf(c.blocks), t.hash, t.height) == Some(c.hashAt[t.height]);
      } else {
        assert t.hash in HeadersOf(c.blocks);
      }
      assert OnMainParent(env, c, b);
      assert Screened(env, c, snaps, b);
    }
  }

  lemma LinearStep(env: Env, genesis: Hash, c: Chain, accepted: set<Hash>, e: Event)
    requires CollisionFree(env) && InStep(env, genesis, c, accepted) && Allowed(c, e) && Linear(env, c, e)
    ensures InStep(env, genesis, After(env, c, e), accepted + Taken(env, c, e))
  {
    EventKeepsInv(env, genesis, c, accepted, e);
    match e {
      case Submitted(b, snaps) =>
        SubmitFollowsIff(env, genesis, c, accepted, snaps, b);
        LinearIndex(env, c, snaps, b);
      case Finalised(_) =>
    }
  }

  lemma LinearIndex(env: Env, c: Chain, snaps: seq<Snapshot>, b: Block)
    requires Linear(env, c, Submitted(b, snaps)) && 0 in c.hashAt
    ensures var c' := Submit(env, c, snaps, b).0; 0 in c'.hashAt && c'.hashAt[0] == c.hashAt[0]
  {
  }

  lemma {:induction false} LinearRunIsHarmless(env: Env, genesis: Hash, c: Chain, accepted: set<Hash>, events: seq<Event>)
    requires CollisionFree(env) && InStep(env, genesis, c, accepted)
    requires env.cfg.validateForkState && DistinctAddresses(env.allocs) && LinearRun(env, c, events)
    ensures HarmlessRun(env, c, events)
    decreases |events|
  {
    if events != [] {
      var e := events[0];
      if e.Submitted? { LinearIsHarmless(env, genesis, c, accepted, e.snaps, e.block); }
      LinearStep(env, genesis, c, accepted, e);
      LinearRunIsHarmless(env, genesis, After(env, c, e), accepted + Taken(env, c, e), events[1..]);
    }
  }

  /** In particular with fork validation on and truthful snapshots, whatever is submitted, as long
      as every block that connects extends the tip: no such run replays anything. */
  lemma LinearRunReplayFree(env: Env, g: Block, l: Ledger, events: seq<Event>)
    requires CollisionFree(env) && g.header.height == 0
    requires env.cfg.validateForkState && DistinctAddresses(env.allocs) && LinearRun(env, GenesisChain(env, g, l), events)
    ensures var c := Run(env, GenesisChain(env, g, l), {}, events).0;
            && Closed(HeadersOf(c.blocks)) && c.tip.Some? && c.tip.value.hash in c.blocks
            && Runs(env, c.blocks, c.tip.value.hash)
            && ReplayFree(Flatten(AncestryOf(c.blocks, c.tip.value.hash)))
  {
    GenesisInv(env, g, l);
    LinearRunIsHarmless(env, env.hashOf(g.header), GenesisChain(env, g, l), {}, events);
    AncestryIsReplayFree(env, g, l, events);
  }

  // ----- the fast path on a stale ledger, exactly -----

  /** The fast path takes a block that runs on the untouched ledger. The tip's ancestry is then free
      of replays exactly when it was before, and the ledger's nonce of every sender of the block is
      at least each nonce that sender used in it. */
  lemma FastPathReplayFreeIff(env: Env, genesis: Hash, c: Chain, snaps: seq<Snapshot>, b: Block)
    requires CollisionFree(env) && Rooted(env, genesis, c) && Extends(env, c, snaps, b)
    ensures var c', was := Submit(env, c, snaps, b).0, Flatten(AncestryOf(c.blocks, c.tip.value.hash));
            && Rooted(env, genesis, c') && c'.tip == Some(Tip(b.header.height, env.hashOf(b.header)))
            && (ReplayFree(Flatten(AncestryOf(c'.blocks, c'.tip.value.hash))) <==> ReplayFree(was) && CaughtUp(c.ledger, was, b.txs))
  {
    SubmitTip(env, genesis, c, snaps, b);
    SubmitKeepsRooted(env, genesis, c, snaps, b);
    ChildAncestry(env, genesis, c, b);
    FlattenAppend(AncestryOf(c.blocks, c.tip.value.hash), b);
    AppendReplayFreeIff(c.ledger, Flatten(AncestryOf(c.blocks, c.tip.value.hash)), b.txs);
  }

  // Every block that connects extends the tip; anchors and snapshots are arbitrary.
  ghost predicate ExtendingRun(env: Env, c: Chain, events: seq<Event>)
    decreases |events|
  {
    events != [] ==>
      && (events[0].Submitted? && Connects(env, c, events[0].block) ==> ExtendsTip(c, events[0].block))
      && ExtendingRun(env, After(env, c, events[0]), events[1..])
  }

  // The ledger is still `l`, and every block of the tip's ancestry was judged on it.
  ghost predicate JudgedOn(c: Chain, l: Ledger)
    requires Closed(HeadersOf(c.blocks)) && c.tip.Some? && c.tip.value.hash in c.blocks
  {
    c.ledger == l && forall b :: b in AncestryOf(c.blocks, c.tip.value.hash) ==> RunTxs(l, b.txs).Ok?
  }

  lemma ExtendingStep(env: Env, genesis: Hash, c: Chain, l: Ledger, snaps: seq<Snapshot>, b: Block)
    requires CollisionFree(env) && Rooted(env, genesis, c) && JudgedOn(c, l) && (Connects(env, c, b) ==> ExtendsTip(c, b))
    ensures var c' := Submit(env, c, snaps, b).0; Rooted(env, genesis, c') && JudgedOn(c', l)
  {
    SubmitTip(env, genesis, c, snaps, b);
    SubmitKeepsRooted(env, genesis, c, snaps, b);
    if Lands(env, c, snaps, b) {
      if Extends(env, c, snaps, b) {
        ChildAncestry(env, genesis, c, b);
      } else {
        assert c.tip.value.hash in HeadersOf(c.blocks);
        AncestryKept(env, genesis, c, b, c.tip.value);
      }
    }
  }

  lemma {:induction false} ExtendingRunJudged(env: Env, genesis: Hash, c: Chain, accepted: set<Hash>, l: Ledger, events: seq<Event>)
    requires CollisionFree(env) && Rooted(env, genesis, c) && JudgedOn(c, l) && ExtendingRun(env, c, events)
    ensures var c' := Run(env, c, accepted, events).0; Rooted(env, genesis, c') && JudgedOn(c', l)
    decreases |events|
  {
    if events != [] {
      var e := events[0];
      match e {
        case Submitted(b, snaps) => ExtendingStep(env, genesis, c, l, snaps, b);
        case Finalised(_) =>
      }
      assert Rooted(env, genesis, After(env, c, e));
      ExtendingRunJudged(env, genesis, After(env, c, e), accepted + Taken(env, c, e), l, events[1..]);
    }
  }

  lemma GenesisJudged(env: Env, g: Block, l: Ledger)
    requires g.header.height == 0
    ensures var c := GenesisChain(env, g, l);
            Rooted(env, env.hashOf(g.header), c) && JudgedOn(c, l)
  {
    var c, h := GenesisChain(env, g, l), env.hashOf(g.header);
    GenesisInv(env, g, l);
    assert HeadersOf(c.blocks) == map[h := g.header];
    assert PathUp(HeadersOf(c.blocks), h, 1) == Some([]);
    assert AncestryOf(c.blocks, h) == [];
  }

  /** So over every run from genesis in which the blocks that connect extend the tip, whatever the
      configuration: the tip's ancestry is free of replays exactly when no account spends in two of
      its blocks. */
  lemma ExtendingRunReplayFreeIff(env: Env, g: Block, l: Ledger, events: seq<Event>)
    requires CollisionFree(env) && g.header.height == 0 && ExtendingRun(env, GenesisChain(env, g, l), events)
    ensures var c := Run(env, GenesisChain(env, g, l), {}, events).0;
            && Closed(HeadersOf(c.blocks)) && c.tip.Some? && c.tip.value.hash in c.blocks
            && (ReplayFree(Flatten(AncestryOf(c.blocks, c.tip.value.hash))) <==> OncePerBlock(AncestryOf(c.blocks, c.tip.value.hash)))
  {
    GenesisJudged(env, g, l);
    ExtendingRunJudged(env, env.hashOf(g.header), GenesisChain(env, g, l), {}, l, events);
    var c := Run(env, GenesisChain(env, g, l), {}, events).0;
    StaleReplayFreeIff(l, AncestryOf(c.blocks, c.tip.value.hash));
  }

  lemma {:induction false} LinearIsExtending(env: Env, c: Chain, events: seq<Event>)
    requires LinearRun(env, c, events)
    ensures ExtendingRun(env, c, events)
    decreases |events|
  {
    if events != [] { LinearIsExtending(env, After(env, c, events[0]), events[1..]); }
  }

  /** With fork validation on, such a run is free of replays, and pays for it: no account ever spends
      in two blocks, since one check wants the replayed nonce and the other the stale one. */
  lemma LinearRunSpendsOnce(env: Env, g: Block, l: Ledger, events: seq<Event>)
    requires CollisionFree(env) && g.header.height == 0
    requires env.cfg.validateForkState && DistinctAddresses(env.allocs) && LinearRun(env, GenesisChain(env, g, l), events)
    ensures var c := Run(env, GenesisChain(env, g, l), {}, events).0;
            && Closed(HeadersOf(c.blocks)) && c.tip.Some? && c.tip.value.hash in c.blocks
            && OncePerBlock(AncestryOf(c.blocks, c.tip.value.hash))
  {
    LinearRunReplayFree(env, g, l, events);
    LinearIsExtending(env, GenesisChain(env, g, l), events);
    ExtendingRunReplayFreeIff(env, g, l, events);
  }

  /** Block by block: a screened block that the fast path takes finds, for each of its senders, the
      same nonce in the replayed and in the recorded ledger; a sender whose recorded nonce is still
      the genesis one occurs nowhere in the ancestry. */
  lemma ScreenedNonces(env: Env, c: Chain, snaps: seq<Snapshot>, b: Block, a: Id)
    requires Screened(env, c, snaps, b) && Extends(env, c, snaps, b) && Uses(b.txs, a)
    ensures var r := RunBlocks(Genesis(env.allocs), AncestryOf(c.blocks, b.header.prev));
            r.Ok? && NonceOf(r.value.nonce, a) == NonceOf(c.ledger.nonce, a)
    ensures NonceOf(c.ledger.nonce, a) == NonceOf(Genesis(env.allocs).nonce, a) ==>
            NoncesOf(Flatten(AncestryOf(c.blocks, b.header.prev)), a) == []
  {
    var g, bs := Genesis(env.allocs), AncestryOf(c.blocks, b.header.prev);
    ScreenedRuns(env, c, snaps, b);
    RunPrefix(g, bs, b);
    RunBlocksAppend(g, bs, b);
    var t :| t in b.txs && SpentBy(t, a);
    var i :| 0 <= i < |b.txs| && b.txs[i] == t;
    SpendIsSeen(b.txs, i);
    RunNonces(RunBlocks(g, bs).value, b.txs, a);
    RunNonces(c.ledger, b.txs, a);
    assert NoncesOf(b.txs, a)[0] == NonceOf(c.ledger.nonce, a) + 1;
    ChainNoncesConsecutive(g, bs, a);
  }

  lemma {:induction false} RunPrefix(l: Ledger, bs: seq<Block>, b: Block)
    requires RunBlocks(l, bs + [b]).Ok?
    ensures RunBlocks(l, bs).Ok?
    decreases |bs|
  {
    if bs != [] {
      assert (bs + [b])[1..] == bs[1..] + [b];
      RunPrefix(RunTxs(l, bs[0].txs).value, bs[1..], b);
    }
  }

  // ----- a stored block that loses its transactions -----

  /** A block that comes with the header of one on the tip's chain and other transactions is accepted,
      and nothing shows: tip, tip work and index stay. A rebuild to the tip's height then replays the
      tip's ancestry with the new transactions in that place. */
  lemma RewrittenReplay(env: Env, genesis: Hash, c: Chain, accepted: set<Hash>, snaps: seq<Snapshot>, b: Block, l: Ledger)
    requires CollisionFree(env) && Inv(env, genesis, c, accepted) && Follows(c, c.tip.value, 1)
    requires Lands(env, c, snaps, b) && Rewrites(env, c, b)
    ensures b.header.height <= |AncestryOf(c.blocks, c.tip.value.hash)|
    ensures var (c', ok) := Submit(env, c, snaps, b);
            && ok && c'.tip == c.tip && c'.tipWork == c.tipWork && c'.hashAt == c.hashAt && !Keeps(c.blocks, c'.blocks)
            && ReplayMain(c'.blocks, c'.hashAt, l, 1, c.tip.value.height)
               == Replay(l, AncestryOf(c.blocks, c.tip.value.hash)[b.header.height - 1 := b])
  {
    var tip, h := c.tip.value, env.hashOf(b.header);
    assert Overwrites(env, c, snaps, b);
    OverwritingIsAccepted(env, genesis, c, accepted, snaps, b);
    StoredBlocksKeptIff(env, genesis, c, snaps, b);
    assert AncestorAt(HeadersOf(c.blocks), tip.hash, b.header.height) == Some(c.hashAt[b.header.height]);
    DisplacedReplay(env, genesis, c, accepted, b, l);
    FollowingIsAncestry(c, tip);
  }

  // ----- the ledger a screened chain is rebuilt to -----

  ghost predicate AllSafe(bs: seq<Block>) { forall i, j :: 0 <= i < |bs| && 0 <= j < |bs[i].txs| ==> E.Safe(bs[i].txs[j]) }

  lemma {:induction false} GenesisNonNegative(allocs: seq<Allocation>)
    ensures NonNegative(Genesis(allocs).bal)
    decreases |allocs|
  {
    if allocs != [] { GenesisNonNegative(allocs[..|allocs| - 1]); }
  }

  /** In every run from genesis without harmful submissions, if the ancestry's transactions are ones
      the engines agree on, the database replays the tip's whole ancestry without failure, to the
      ledger the blocks were screened on. */
  lemma HarmlessRunReplays(env: Env, g: Block, l: Ledger, events: seq<Event>)
    requires CollisionFree(env) && g.header.height == 0 && HarmlessRun(env, GenesisChain(env, g, l), events)
    ensures var c := Run(env, GenesisChain(env, g, l), {}, events).0;
            && Closed(HeadersOf(c.blocks)) && c.tip.Some? && c.tip.value.hash in c.blocks
            && Runs(env, c.blocks, c.tip.value.hash)
            && var bs := AncestryOf(c.blocks, c.tip.value.hash);
               AllSafe(bs) ==> Replay(Genesis(env.allocs), bs) == Outcome(RunBlocks(Genesis(env.allocs), bs).value, true)
  {
    AncestryIsReplayFree(env, g, l, events);
    var c := Run(env, GenesisChain(env, g, l), {}, events).0;
    var bs := AncestryOf(c.blocks, c.tip.value.hash);
    GenesisNonNegative(env.allocs);
    if AllSafe(bs) { E.SafeChainReplays(Genesis(env.allocs), bs); }
  }

  /** And a screened block of safe transactions that overtakes the tip leaves the node with exactly
      the ledger of its own chain: the rebuild, whose result is discarded, does not fail. */
  lemma ScreenedSwitchFits(env: Env, genesis: Hash, c: Chain, accepted: set<Hash>, snaps: seq<Snapshot>, b: Block)
    requires CollisionFree(env) && Inv(env, genesis, c, accepted) && Follows(c, c.tip.value, 1)
    requires Screened(env, c, snaps, b) && Overtakes(env, c, snaps, b) && AllSafe(AncestryOf(c.blocks, b.header.prev) + [b])
    requires UsableLast(env, Submit(env, c, snaps, b).0, snaps, Tip(b.header.height, env.hashOf(b.header)))
    ensures var c', r := Submit(env, c, snaps, b).0, RunBlocks(Genesis(env.allocs), AncestryOf(c.blocks, b.header.prev) + [b]);
            && c'.tip == Some(Tip(b.header.height, env.hashOf(b.header)))
            && r.Ok? && c'.ledger == r.value
            && Rebuilt(c'.blocks, c'.hashAt, snaps, env.allocs, b.header.height).ok
  {
    var s, t, bs := Stored(env, c, b), Tip(b.header.height, env.hashOf(b.header)), AncestryOf(c.blocks, b.header.prev) + [b];
    ScreenedRuns(env, c, snaps, b);
    GenesisNonNegative(env.allocs);
    E.SafeChainReplays(Genesis(env.allocs), bs);
    SwitchIff(env, s, snaps, t);
    OvertakenIs(env, c, snaps, b);
    AnchorStillFollowed(env, genesis, c, accepted, snaps, b);
    SwitchRebuildsLedger(env, s, snaps, t);
    ChildAncestry(env, genesis, c, b);
  }

  lemma AnchorStillFollowed(env: Env, genesis: Hash, c: Chain, accepted: set<Hash>, snaps: seq<Snapshot>, b: Block)
    requires CollisionFree(env) && Inv(env, genesis, c, accepted) && Follows(c, c.tip.value, 1) && Overtakes(env, c, snaps, b)
    ensures Follows(Stored(env, c, b), c.anchor.value, 1)
  {
    var s, t, fin := Stored(env, c, b), Tip(b.header.height, env.hashOf(b.header)), c.anchor.value;
    SwitchIff(env, s, snaps, t);
    AnchorFollowed(c);
    StoredFollowsIff(env, genesis, c, b, fin);
  }
}

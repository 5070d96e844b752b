/** Accepting blocks and choosing the chain (SubmitBlock and ensureGenesisStored in
    core/node/node.go), as a state machine over the chain database. */
module BlockSubmission {
  import opened Wrappers
  import opened ChainTypes
  import opened LedgerSpec
  import opened Storage
  import opened BlockRules
  import opened Pow
  import opened Simulation
  import opened StateReplay
  import opened Ancestry
  import opened NodeTypes
  import opened ForkReplay
  import opened ForkChoice

  // ----- one submission -----

  predicate Admissible(env: Env, c: Chain, snaps: seq<Snapshot>, b: Block) {
    && b.header.chainId == env.chainId
    && LimitsOk(env.cfg, b.txs)
    && ForkVerdict(env, c, snaps, b)
    && BasicOk(env.cfg, b.txs)
    && MeetsTarget(env.hashOf(b.header), b.header.bits)
  }

  predicate Connects(env: Env, c: Chain, b: Block) {
    && b.header.prev in c.blocks
    && c.blocks[b.header.prev].header.height + 1 == b.header.height
    && var want := env.nextBits(c.hashAt, c.blocks, b.header.height);
       want.Some? ==> b.header.bits == want.value
  }

  function NewWork(c: Chain, b: Block): nat {
    Cumulative(if b.header.prev in c.work then c.work[b.header.prev] else 0, Work64(b.header.bits))
  }

  // The block is stored, and takes over its height in the index, before any choice is made.
  function Stored(env: Env, c: Chain, b: Block): Chain {
    var h := env.hashOf(b.header);
    c.(blocks := c.blocks[h := b], hashAt := c.hashAt[b.header.height := h],
       headers := c.headers[h := b.header], work := c.work[h := NewWork(c, b)])
  }

  predicate ExtendsTip(c: Chain, b: Block) {
    c.tip.Some? && b.header.prev == c.tip.value.hash && b.header.height == c.tip.value.height + 1
  }

  // The stored block as the new tip.
  function Advanced(env: Env, c: Chain, b: Block): Chain {
    Stored(env, c, b).(tip := Some(Tip(b.header.height, env.hashOf(b.header))), tipWork := NewWork(c, b))
  }

  // What happens to a connected block: it is stored, and then perhaps becomes the tip.
  function Choose(env: Env, c: Chain, snaps: seq<Snapshot>, b: Block): (Chain, bool) {
    var s, tip := Stored(env, c, b), Tip(b.header.height, env.hashOf(b.header));
    if ExtendsTip(c, b) then
      if RunTxs(c.ledger, b.txs).Ok? then (Advanced(env, c, b), true) else (s, false)
    else if NewWork(c, b) > c.tipWork then
      match Switch(env, s, snaps, tip)
      case Some(switched) => (switched.(tipWork := NewWork(c, b)), true)
      case None => (s, true)
    else (s, true)
  }

  // The new state, and whether the caller is told the block was taken.
  function Submit(env: Env, c: Chain, snaps: seq<Snapshot>, b: Block): (Chain, bool) {
    if !Admissible(env, c, snaps, b) then (c, false)
    else if b.header.height == 0 then (c, true)
    else if !Connects(env, c, b) then (c, false)
    else Choose(env, c, snaps, b)
  }

  method SubmitBlock(db: Db, env: Env, snaps: seq<Snapshot>, b: Block) returns (err: Option<string>)
    modifies db
    ensures ChainOf(db) == Submit(env, old(ChainOf(db)), snaps, b).0
    ensures err.None? == Submit(env, old(ChainOf(db)), snaps, b).1
    ensures db.finalized == old(db.finalized) && db.headerTip == old(db.headerTip)
  {
    if b.header.chainId != env.chainId { return Some("wrong chain_id"); }
    err := ValidateLimits(env.cfg, b);
    if err.Some? { return; }
    var replayed := ValidateBlockStateOnMainParent(db, env, snaps, b);
    if !replayed { return Some("replay_invalid"); }
    err := ValidateBlockBasic(env.cfg, b);
    if err.Some? { return; }
    var h := env.hashOf(b.header);
    if !MeetsTarget(h, b.header.bits) { return Some("pow does not meet target"); }
    if b.header.height == 0 { return None; }
    if b.header.prev !in db.blocks { return Some("missing parent"); }
    if db.blocks[b.header.prev].header.height + 1 != b.header.height { return Some("bad height linkage"); }
    var want := env.nextBits(db.hashAt, db.blocks, b.header.height);
    if want.Some? && b.header.bits != want.value { return Some("bad bits"); }
    err := StoreAndChoose(db, env, snaps, b, h);
  }

  method StoreAndChoose(db: Db, env: Env, snaps: seq<Snapshot>, b: Block, h: Hash) returns (err: Option<string>)
    requires BasicOk(env.cfg, b.txs) && h == env.hashOf(b.header)
    modifies db
    ensures ChainOf(db) == Choose(env, old(ChainOf(db)), snaps, b).0
    ensures err.None? == Choose(env, old(ChainOf(db)), snaps, b).1
    ensures db.finalized == old(db.finalized) && db.headerTip == old(db.headerTip)
  {
    var cum := StoreBlock(db, env, b, h);
    if db.tip.Some? && b.header.prev == db.tip.value.hash && b.header.height == db.tip.value.height + 1 {
      err := AdvanceTip(db, env, b, h, cum);
    } else {
      if cum > db.tipWork { Overtake(db, env, snaps, Tip(b.header.height, h), cum); }
      err := None;
    }
  }

  // A heavier block elsewhere: switch to it if its chain holds the anchor.
  method Overtake(db: Db, env: Env, snaps: seq<Snapshot>, tip: Tip, cum: nat)
    modifies db`hashAt, db`tip, db`tipWork, db`bal, db`nonce
    ensures ChainOf(db) == match Switch(env, old(ChainOf(db)), snaps, tip)
                           case Some(switched) => switched.(tipWork := cum)
                           case None => old(ChainOf(db))
  {
    var e := TrySwitchMainChain(db, env, snaps, tip.hash, tip.height);
    if e.None? { db.tipWork := cum; }
  }

  // The fast path: simulate on the current ledger, and move the tip. The ledger is not touched.
  method AdvanceTip(db: Db, env: Env, b: Block, h: Hash, cum: nat) returns (err: Option<string>)
    requires BasicOk(env.cfg, b.txs)
    modifies db`tip, db`tipWork, db`hashAt
    ensures err.None? == RunTxs(LedgerOf(db), b.txs).Ok?
    ensures ChainOf(db) == if err.Some? then old(ChainOf(db))
                           else old(ChainOf(db)).(tip := Some(Tip(b.header.height, h)), tipWork := cum,
                                                  hashAt := old(db.hashAt)[b.header.height := h])
  {
    var e, _, _ := ValidateBlockStateTip(db, env.cfg, b);
    if e.Some? { return Some("bad block state"); }
    db.tip := Some(Tip(b.header.height, h));
    db.tipWork := cum;
    db.hashAt := db.hashAt[b.header.height := h];
    return None;
  }

  method StoreBlock(db: Db, env: Env, b: Block, h: Hash) returns (cum: nat)
    requires h == env.hashOf(b.header)
    modifies db`blocks, db`hashAt, db`headers, db`work
    ensures ChainOf(db) == Stored(env, old(ChainOf(db)), b)
    ensures cum == NewWork(old(ChainOf(db)), b)
  {
    db.blocks := db.blocks[h := b];
    db.hashAt := db.hashAt[b.header.height := h];
    db.headers := db.headers[h := b.header];
    var parentWork := if b.header.prev in db.work then db.work[b.header.prev] else 0;
    var wAdd := ComputeWork64(b.header.bits);
    cum := Cumulative(parentWork, wAdd);
    db.work := db.work[h := cum];
  }

  // ----- the invariant -----

  // Work summed along the ancestry, saturating at every step as the code does.
  ghost function ChainWork(s: Store, h: Hash): nat
    requires Closed(s) && h in s
    decreases s[h].height
  {
    if s[h].height == 0 then Work64(s[h].bits) else Cumulative(ChainWork(s, s[h].prev), Work64(s[h].bits))
  }

  ghost function TotalWork(s: Store, h: Hash): nat
    requires Closed(s) && h in s
    decreases s[h].height
  {
    Work64(s[h].bits) + if s[h].height == 0 then 0 else TotalWork(s, s[h].prev)
  }

  lemma {:induction false} ChainWorkIsCappedSum(s: Store, h: Hash)
    requires Closed(s) && h in s
    ensures ChainWork(s, h) == if TotalWork(s, h) <= MaxWork then TotalWork(s, h) else MaxWork
    decreases s[h].height
  {
    WorkBounds(s[h].bits);
    if s[h].height > 0 {
      ChainWorkIsCappedSum(s, s[h].prev);
      CumulativeSaturates(ChainWork(s, s[h].prev), Work64(s[h].bits));
    }
  }

  lemma {:induction false} ChainWorkStable(s: Store, bigger: Store, h: Hash)
    requires Closed(s) && Closed(bigger) && h in s
    requires forall k :: k in s ==> k in bigger && bigger[k] == s[k]
    ensures ChainWork(bigger, h) == ChainWork(s, h)
    decreases s[h].height
  {
    if s[h].height > 0 { ChainWorkStable(s, bigger, s[h].prev); }
  }

  ghost predicate Descends(s: Store, h: Hash, anchor: Tip)
    requires Linked(s)
  {
    AncestorAt(s, h, anchor.height) == Some(anchor.hash)
  }

  // Stored blocks form a tree under one genesis block, each with its saturated chain work.
  ghost predicate Tree(env: Env, genesis: Hash, c: Chain) {
    var s := HeadersOf(c.blocks);
    && Keyed(env, c.blocks)
    && Closed(s)
    && (forall h :: h in s && s[h].height == 0 ==> h == genesis)
    && (forall h :: h in s ==> h in c.work && c.work[h] == ChainWork(s, h))
  }

  // The tip is stored, has the recorded work, and descends from the anchor.
  ghost predicate TipAnchored(c: Chain)
    requires Closed(HeadersOf(c.blocks))
  {
    && c.tip.Some? && c.anchor.Some? && c.tip.value.hash in c.blocks && c.tip.value.hash in c.work
    && c.blocks[c.tip.value.hash].header.height == c.tip.value.height
    && c.tipWork == c.work[c.tip.value.hash]
    && Descends(HeadersOf(c.blocks), c.tip.value.hash, c.anchor.value)
  }

  // No accepted block that descends from the anchor has more work than the tip.
  ghost predicate Heaviest(c: Chain, accepted: set<Hash>)
    requires Closed(HeadersOf(c.blocks)) && c.anchor.Some?
  {
    forall h :: h in accepted ==>
      h in c.blocks && h in c.work && (Descends(HeadersOf(c.blocks), h, c.anchor.value) ==> c.work[h] <= c.tipWork)
  }

  ghost predicate Inv(env: Env, genesis: Hash, c: Chain, accepted: set<Hash>) {
    Tree(env, genesis, c) && TipAnchored(c) && Heaviest(c, accepted)
  }

  // ----- storing a block -----

  lemma StoredHeaders(env: Env, c: Chain, b: Block)
    ensures HeadersOf(Stored(env, c, b).blocks) == HeadersOf(c.blocks)[env.hashOf(b.header) := b.header]
  {
  }

  // Storing a connected block only ever adds to the tree.
  lemma StoredGrows(env: Env, genesis: Hash, c: Chain, b: Block)
    requires CollisionFree(env) && Tree(env, genesis, c) && Connects(env, c, b)
    ensures var s, s' := HeadersOf(c.blocks), HeadersOf(Stored(env, c, b).blocks);
            && (forall k :: k in s ==> k in s' && s'[k] == s[k])
            && Closed(s')
            && (forall h :: h in s' && s'[h].height == 0 ==> h == genesis)
  {
    StoredHeaders(env, c, b);
    var h := env.hashOf(b.header);
    if h in c.blocks { assert env.hashOf(c.blocks[h].header) == env.hashOf(b.header); }
  }

  lemma StoredTree(env: Env, genesis: Hash, c: Chain, b: Block)
    requires CollisionFree(env) && Tree(env, genesis, c) && Connects(env, c, b)
    ensures Tree(env, genesis, Stored(env, c, b))
    ensures forall k :: k in c.blocks ==> k in Stored(env, c, b).work && Stored(env, c, b).work[k] == c.work[k]
  {
    var c' := Stored(env, c, b);
    var s, s', added := HeadersOf(c.blocks), HeadersOf(c'.blocks), env.hashOf(b.header);
    StoredGrows(env, genesis, c, b);
    StoredHeaders(env, c, b);
    ChainWorkStable(s, s', b.header.prev);
    assert ChainWork(s', added) == NewWork(c, b);
    forall h | h in s' ensures h in c'.work && c'.work[h] == ChainWork(s', h) {
      if h != added { ChainWorkStable(s, s', h); }
    }
    forall k | k in c.blocks ensures k in c'.work && c'.work[k] == c.work[k] {
      assert k in s;
      ChainWorkStable(s, s', k);
    }
  }

  lemma StoredDescends(env: Env, genesis: Hash, c: Chain, b: Block, h: Hash, anchor: Tip)
    requires CollisionFree(env) && Tree(env, genesis, c) && Connects(env, c, b) && h in c.blocks
    ensures Closed(HeadersOf(Stored(env, c, b).blocks))
    ensures Descends(HeadersOf(Stored(env, c, b).blocks), h, anchor) == Descends(HeadersOf(c.blocks), h, anchor)
  {
    StoredGrows(env, genesis, c, b);
    AncestorStable(HeadersOf(c.blocks), HeadersOf(Stored(env, c, b).blocks), h, anchor.height);
  }

  // Storing alone keeps the whole invariant, but says nothing about the new block.
  lemma StoredInv(env: Env, genesis: Hash, c: Chain, accepted: set<Hash>, b: Block)
    requires CollisionFree(env) && Inv(env, genesis, c, accepted) && Connects(env, c, b)
    ensures Inv(env, genesis, Stored(env, c, b), accepted)
  {
    var c' := Stored(env, c, b);
    StoredTree(env, genesis, c, b);
    StoredDescends(env, genesis, c, b, c.tip.value.hash, c.anchor.value);
    assert c'.blocks[c.tip.value.hash].header == c.blocks[c.tip.value.hash].header by {
      StoredGrows(env, genesis, c, b);
      assert c.tip.value.hash in HeadersOf(c.blocks);
    }
    forall h | h in accepted
      ensures h in c'.blocks && h in c'.work && (Descends(HeadersOf(c'.blocks), h, c'.anchor.value) ==> c'.work[h] <= c'.tipWork)
    {
      StoredDescends(env, genesis, c, b, h, c.anchor.value);
    }
  }

  // ----- when a switch goes through -----

  // In a closed store the walk back is the ancestor lookup, and finds every block it needs.
  lemma {:induction false} BackIsAncestor(blocks: map<Hash, Block>, h: Hash, n: nat)
    requires Closed(HeadersOf(blocks)) && h in blocks && n <= blocks[h].header.height
    ensures Back(blocks, h, n) == AncestorAt(HeadersOf(blocks), h, blocks[h].header.height - n)
    ensures Back(blocks, h, n).Some?
    decreases n
  {
    if n > 0 {
      assert h in HeadersOf(blocks);
      BackIsAncestor(blocks, blocks[h].header.prev, n - 1);
    }
  }

  /** A switch to a stored block succeeds exactly when the block descends from the anchor; in
      particular no block on the way is ever missing. */
  lemma SwitchIff(env: Env, c: Chain, snaps: seq<Snapshot>, tip: Tip)
    requires Closed(HeadersOf(c.blocks)) && c.anchor.Some?
    requires tip.hash in c.blocks && c.blocks[tip.hash].header.height == tip.height && tip.height > 0
    ensures Switch(env, c, snaps, tip).Some? <==> Descends(HeadersOf(c.blocks), tip.hash, c.anchor.value)
    ensures tip.height >= c.anchor.value.height ==> Back(c.blocks, tip.hash, tip.height - c.anchor.value.height).Some?
  {
    if tip.height >= c.anchor.value.height { BackIsAncestor(c.blocks, tip.hash, tip.height - c.anchor.value.height); }
  }

  lemma {:induction false} PathDownIsAncestry(blocks: map<Hash, Block>, h: Hash, n: nat, i: nat)
    requires Closed(HeadersOf(blocks)) && h in blocks && i <= n <= blocks[h].header.height
    requires Back(blocks, h, n).Some?
    ensures AncestorAt(HeadersOf(blocks), h, blocks[h].header.height - i) == Some(PathDown(blocks, h, n)[i])
    decreases n
  {
    if i > 0 {
      assert h in HeadersOf(blocks);
      BackIsAncestor(blocks, blocks[h].header.prev, n - 1);
      PathDownIsAncestry(blocks, blocks[h].header.prev, n - 1, i - 1);
    }
  }

  lemma SwitchFrame(env: Env, c: Chain, snaps: seq<Snapshot>, tip: Tip)
    requires c.anchor.Some? && Switch(env, c, snaps, tip).Some?
    ensures var c', fin := Switch(env, c, snaps, tip).value, c.anchor.value;
            && c'.blocks == c.blocks && c'.work == c.work && c'.anchor == c.anchor && c'.tip == Some(tip)
            && (tip.height > 0 ==>
                  && tip.height >= fin.height
                  && Back(c.blocks, tip.hash, tip.height - fin.height) == Some(fin.hash)
                  && c'.hashAt == Rewritten(c.hashAt, fin.height, PathDown(c.blocks, tip.hash, tip.height - fin.height)))
  {
  }

  // The index after writing the path from `tip` down to `fin`.
  ghost predicate IndexedAlong(blocks: map<Hash, Block>, before: map<nat, Hash>, after: map<nat, Hash>, tip: Tip, fin: Tip, k: nat)
    requires Closed(HeadersOf(blocks))
  {
    && (k in after <==> k in before || fin.height <= k <= tip.height)
    && (fin.height <= k <= tip.height ==> AncestorAt(HeadersOf(blocks), tip.hash, k) == Some(after[k]))
    && (k == fin.height <= tip.height ==> after[k] == fin.hash)
    && (k in before && !(fin.height <= k <= tip.height) ==> after[k] == before[k])
  }

  lemma WrittenIndex(blocks: map<Hash, Block>, hashAt: map<nat, Hash>, tip: Tip, fin: Tip, k: nat)
    requires Closed(HeadersOf(blocks)) && tip.hash in blocks && blocks[tip.hash].header.height == tip.height >= fin.height
    requires Back(blocks, tip.hash, tip.height - fin.height) == Some(fin.hash)
    ensures IndexedAlong(blocks, hashAt, Rewritten(hashAt, fin.height, PathDown(blocks, tip.hash, tip.height - fin.height)), tip, fin, k)
  {
    var n := tip.height - fin.height;
    var down := PathDown(blocks, tip.hash, n);
    RewrittenAt(hashAt, fin.height, down, k);
    if fin.height <= k <= tip.height { PathDownIsAncestry(blocks, tip.hash, n, tip.height - k); }
  }

  /** After a successful switch every height from the anchor to the new tip is indexed to the
      new tip's ancestor at that height, beginning with the anchor itself, and every other
      height is indexed as before. */
  lemma SwitchIndexExact(env: Env, c: Chain, snaps: seq<Snapshot>, tip: Tip, k: nat)
    requires Closed(HeadersOf(c.blocks)) && c.anchor.Some?
    requires tip.hash in c.blocks && c.blocks[tip.hash].header.height == tip.height && tip.height > 0
    requires Switch(env, c, snaps, tip).Some?
    ensures IndexedAlong(c.blocks, c.hashAt, Switch(env, c, snaps, tip).value.hashAt, tip, c.anchor.value, k)
  {
    SwitchFrame(env, c, snaps, tip);
    WrittenIndex(c.blocks, c.hashAt, tip, c.anchor.value, k);
  }

  // ----- one submission keeps the invariant -----

  // Moving the tip to a block at least as heavy that descends from the anchor.
  lemma MoveTip(env: Env, genesis: Hash, c: Chain, accepted: set<Hash>, tip: Tip, c': Chain)
    requires Inv(env, genesis, c, accepted)
    requires tip.hash in c.blocks && c.blocks[tip.hash].header.height == tip.height
    requires Descends(HeadersOf(c.blocks), tip.hash, c.anchor.value) && c.work[tip.hash] >= c.tipWork
    requires c'.blocks == c.blocks && c'.work == c.work && c'.anchor == c.anchor
    requires c'.tip == Some(tip) && c'.tipWork == c.work[tip.hash]
    ensures Inv(env, genesis, c', accepted + {tip.hash})
  {
  }

  // A stored block that does not outweigh the tip, or does not descend from the anchor.
  lemma AdmitLight(env: Env, genesis: Hash, c: Chain, accepted: set<Hash>, h: Hash)
    requires Inv(env, genesis, c, accepted) && h in c.blocks && h in c.work
    requires c.work[h] <= c.tipWork || !Descends(HeadersOf(c.blocks), h, c.anchor.value)
    ensures Inv(env, genesis, c, accepted + {h})
  {
  }

  lemma TipChildDescends(c: Chain, h: Hash)
    requires Closed(HeadersOf(c.blocks)) && TipAnchored(c)
    requires h in c.blocks && c.blocks[h].header.prev == c.tip.value.hash && c.blocks[h].header.height == c.tip.value.height + 1
    ensures Descends(HeadersOf(c.blocks), h, c.anchor.value)
  {
  }

  function Accepted(env: Env, c: Chain, snaps: seq<Snapshot>, b: Block): set<Hash> {
    if Submit(env, c, snaps, b).1 && b.header.height > 0 then {env.hashOf(b.header)} else {}
  }

  lemma FastPathKeepsInv(env: Env, genesis: Hash, c: Chain, accepted: set<Hash>, b: Block)
    requires CollisionFree(env) && Inv(env, genesis, c, accepted) && Connects(env, c, b) && ExtendsTip(c, b)
    ensures Inv(env, genesis, Advanced(env, c, b), accepted + {env.hashOf(b.header)})
    ensures NewWork(c, b) >= c.tipWork
  {
    var s, h := Stored(env, c, b), env.hashOf(b.header);
    StoredInv(env, genesis, c, accepted, b);
    WorkNeverFalls(env, genesis, c, b);
    TipChildDescends(s, h);
    MoveTip(env, genesis, s, accepted, Tip(b.header.height, h), Advanced(env, c, b));
  }

  lemma SwitchKeepsInv(env: Env, genesis: Hash, c: Chain, accepted: set<Hash>, snaps: seq<Snapshot>, b: Block)
    requires CollisionFree(env) && Inv(env, genesis, c, accepted) && Connects(env, c, b)
    requires b.header.height > 0 && NewWork(c, b) > c.tipWork
    ensures var switched := Switch(env, Stored(env, c, b), snaps, Tip(b.header.height, env.hashOf(b.header)));
            var c' := if switched.Some? then switched.value.(tipWork := NewWork(c, b)) else Stored(env, c, b);
            Inv(env, genesis, c', accepted + {env.hashOf(b.header)})
  {
    var s, h := Stored(env, c, b), env.hashOf(b.header);
    var tip := Tip(b.header.height, h);
    StoredInv(env, genesis, c, accepted, b);
    SwitchIff(env, s, snaps, tip);
    if Switch(env, s, snaps, tip).Some? {
      SwitchFrame(env, s, snaps, tip);
      MoveTip(env, genesis, s, accepted, tip, Switch(env, s, snaps, tip).value.(tipWork := NewWork(c, b)));
    } else {
      AdmitLight(env, genesis, s, accepted, h);
    }
  }

  lemma LightKeepsInv(env: Env, genesis: Hash, c: Chain, accepted: set<Hash>, b: Block)
    requires CollisionFree(env) && Inv(env, genesis, c, accepted) && Connects(env, c, b) && NewWork(c, b) <= c.tipWork
    ensures Inv(env, genesis, Stored(env, c, b), accepted + {env.hashOf(b.header)})
  {
    StoredInv(env, genesis, c, accepted, b);
    AdmitLight(env, genesis, Stored(env, c, b), accepted, env.hashOf(b.header));
  }

  lemma ChooseKeepsInv(env: Env, genesis: Hash, c: Chain, accepted: set<Hash>, snaps: seq<Snapshot>, b: Block, c': Chain, ok: bool)
    requires CollisionFree(env) && Inv(env, genesis, c, accepted) && Connects(env, c, b) && b.header.height > 0
    requires Choose(env, c, snaps, b) == (c', ok)
    ensures Inv(env, genesis, c', if ok then accepted + {env.hashOf(b.header)} else accepted)
  {
    if ExtendsTip(c, b) {
      if RunTxs(c.ledger, b.txs).Ok? {
        FastPathKeepsInv(env, genesis, c, accepted, b);
        assert c' == Advanced(env, c, b) && ok;
      } else {
        StoredInv(env, genesis, c, accepted, b);
        assert c' == Stored(env, c, b) && !ok;
      }
    } else if NewWork(c, b) > c.tipWork {
      SwitchKeepsInv(env, genesis, c, accepted, snaps, b);
      assert ok;
    } else {
      LightKeepsInv(env, genesis, c, accepted, b);
      assert c' == Stored(env, c, b) && ok;
    }
  }

  lemma SwitchTipWork(env: Env, c: Chain, snaps: seq<Snapshot>, tip: Tip)
    requires Switch(env, c, snaps, tip).Some?
    ensures Switch(env, c, snaps, tip).value.anchor == c.anchor
  {
  }

  // A submission leaves the anchor alone and never lowers the tip's work.
  lemma ChooseFrame(env: Env, genesis: Hash, c: Chain, accepted: set<Hash>, snaps: seq<Snapshot>, b: Block, c': Chain, ok: bool)
    requires Inv(env, genesis, c, accepted) && Connects(env, c, b) && Choose(env, c, snaps, b) == (c', ok)
    ensures c'.anchor == c.anchor && c'.tipWork >= c.tipWork
  {
    if ExtendsTip(c, b) {
      WorkNeverFalls(env, genesis, c, b);
    } else if NewWork(c, b) > c.tipWork {
      var tip := Tip(b.header.height, env.hashOf(b.header));
      if Switch(env, Stored(env, c, b), snaps, tip).Some? { SwitchTipWork(env, Stored(env, c, b), snaps, tip); }
    }
  }

  /** One submission, whatever the block, keeps the invariant with the block added to the
      accepted ones if it was taken; the anchor stays and the tip's work never falls. */
  lemma SubmitKeepsInv(env: Env, genesis: Hash, c: Chain, accepted: set<Hash>, snaps: seq<Snapshot>, b: Block)
    requires CollisionFree(env) && Inv(env, genesis, c, accepted)
    ensures Inv(env, genesis, Submit(env, c, snaps, b).0, accepted + Accepted(env, c, snaps, b))
    ensures Submit(env, c, snaps, b).0.anchor == c.anchor
    ensures Submit(env, c, snaps, b).0.tipWork >= c.tipWork
  {
    if Admissible(env, c, snaps, b) && b.header.height > 0 && Connects(env, c, b) {
      var (c', ok) := Choose(env, c, snaps, b);
      assert Submit(env, c, snaps, b) == (c', ok);
      ChooseKeepsInv(env, genesis, c, accepted, snaps, b, c', ok);
      assert accepted + {} == accepted;
      ChooseFrame(env, genesis, c, accepted, snaps, b, c', ok);
    } else {
      assert accepted + {} == accepted;
    }
  }

  lemma WorkNeverFalls(env: Env, genesis: Hash, c: Chain, b: Block)
    requires Tree(env, genesis, c) && Connects(env, c, b)
    ensures NewWork(c, b) >= c.work[b.header.prev]
  {
    var s := HeadersOf(c.blocks);
    assert b.header.prev in s;
    ChainWorkIsCappedSum(s, b.header.prev);
    WorkBounds(b.header.bits);
    CumulativeSaturates(c.work[b.header.prev], Work64(b.header.bits));
  }

  // ----- which submissions move the tip -----

  // Stored blocks form a tree, an anchor is recorded, and the tip is stored at its height;
  // nothing is said of the recorded tip work, or of where the anchor lies.
  ghost predicate Rooted(env: Env, genesis: Hash, c: Chain) {
    && Tree(env, genesis, c) && c.anchor.Some? && c.tip.Some?
    && c.tip.value.hash in c.blocks && c.blocks[c.tip.value.hash].header.height == c.tip.value.height
  }

  // The block gets as far as being stored.
  ghost predicate Lands(env: Env, c: Chain, snaps: seq<Snapshot>, b: Block) {
    Admissible(env, c, snaps, b) && b.header.height > 0 && Connects(env, c, b)
  }

  // It is taken by the fast path.
  ghost predicate Extends(env: Env, c: Chain, snaps: seq<Snapshot>, b: Block) {
    Lands(env, c, snaps, b) && ExtendsTip(c, b) && RunTxs(c.ledger, b.txs).Ok?
  }

  // It outweighs the recorded tip work elsewhere, on a chain that has the anchor.
  ghost predicate Overtakes(env: Env, c: Chain, snaps: seq<Snapshot>, b: Block)
    requires c.anchor.Some?
  {
    && Lands(env, c, snaps, b) && !ExtendsTip(c, b) && NewWork(c, b) > c.tipWork
    && Closed(HeadersOf(Stored(env, c, b).blocks))
    && Descends(HeadersOf(Stored(env, c, b).blocks), env.hashOf(b.header), c.anchor.value)
  }

  /** The tip moves, to the submitted block, exactly when it extends the tip and runs on the
      ledger, or overtakes it. */
  lemma SubmitTip(env: Env, genesis: Hash, c: Chain, snaps: seq<Snapshot>, b: Block)
    requires CollisionFree(env) && Rooted(env, genesis, c)
    ensures var c' := Submit(env, c, snaps, b).0;
            && c'.tip == (if Extends(env, c, snaps, b) || Overtakes(env, c, snaps, b) then Some(Tip(b.header.height, env.hashOf(b.header))) else c.tip)
            && c'.blocks == (if Lands(env, c, snaps, b) then Stored(env, c, b).blocks else c.blocks)
            && c'.work == (if Lands(env, c, snaps, b) then Stored(env, c, b).work else c.work)
            && c'.anchor == c.anchor
  {
    if Lands(env, c, snaps, b) {
      var (c', ok) := Choose(env, c, snaps, b);
      assert Submit(env, c, snaps, b) == (c', ok);
      ChosenTip(env, genesis, c, snaps, b, c', ok);
    }
  }

  lemma ChosenTip(env: Env, genesis: Hash, c: Chain, snaps: seq<Snapshot>, b: Block, c': Chain, ok: bool)
    requires CollisionFree(env) && Rooted(env, genesis, c) && Lands(env, c, snaps, b) && Choose(env, c, snaps, b) == (c', ok)
    ensures c'.tip == if Extends(env, c, snaps, b) || Overtakes(env, c, snaps, b) then Some(Tip(b.header.height, env.hashOf(b.header))) else c.tip
    ensures c'.blocks == Stored(env, c, b).blocks && c'.work == Stored(env, c, b).work && c'.anchor == c.anchor
  {
    if !ExtendsTip(c, b) && NewWork(c, b) > c.tipWork {
      StoredGrows(env, genesis, c, b);
      SwitchOutcome(env, Stored(env, c, b), snaps, Tip(b.header.height, env.hashOf(b.header)));
    }
  }

  lemma SwitchOutcome(env: Env, s: Chain, snaps: seq<Snapshot>, tip: Tip)
    requires Closed(HeadersOf(s.blocks)) && s.anchor.Some?
    requires tip.hash in s.blocks && s.blocks[tip.hash].header.height == tip.height && tip.height > 0
    ensures var w := Switch(env, s, snaps, tip);
            && (w.Some? <==> Descends(HeadersOf(s.blocks), tip.hash, s.anchor.value))
            && (w.Some? ==> w.value.tip == Some(tip) && w.value.blocks == s.blocks && w.value.work == s.work && w.value.anchor == s.anchor)
  {
    SwitchIff(env, s, snaps, tip);
    if Switch(env, s, snaps, tip).Some? { SwitchFrame(env, s, snaps, tip); }
  }

  lemma OvertakenIs(env: Env, c: Chain, snaps: seq<Snapshot>, b: Block)
    requires c.anchor.Some? && Overtakes(env, c, snaps, b)
    ensures var t := Tip(b.header.height, env.hashOf(b.header));
            var w := Switch(env, Stored(env, c, b), snaps, t);
            w.Some? && w.value.tip == Some(t) && Submit(env, c, snaps, b) == (w.value.(tipWork := NewWork(c, b)), true)
  {
    var s, t := Stored(env, c, b), Tip(b.header.height, env.hashOf(b.header));
    SwitchIff(env, s, snaps, t);
    SwitchFrame(env, s, snaps, t);
  }

  lemma SubmitKeepsRooted(env: Env, genesis: Hash, c: Chain, snaps: seq<Snapshot>, b: Block)
    requires CollisionFree(env) && Rooted(env, genesis, c)
    ensures Rooted(env, genesis, Submit(env, c, snaps, b).0)
  {
    SubmitTip(env, genesis, c, snaps, b);
    if Lands(env, c, snaps, b) {
      StoredTree(env, genesis, c, b);
      StoredGrows(env, genesis, c, b);
      assert c.tip.value.hash in HeadersOf(c.blocks);
    }
  }

  // ----- a stored block is kept, or overwritten -----

  // A block lands under the hash of a stored one, with other transactions.
  ghost predicate Overwrites(env: Env, c: Chain, snaps: seq<Snapshot>, b: Block) {
    Lands(env, c, snaps, b) && env.hashOf(b.header) in c.blocks && c.blocks[env.hashOf(b.header)].txs != b.txs
  }

  ghost predicate Keeps(before: map<Hash, Block>, after: map<Hash, Block>) {
    forall h :: h in before ==> h in after && after[h] == before[h]
  }

  /** The transaction root is not compared with the transactions, so a submission keeps every
      stored block as it was exactly when it is not one that comes with a stored block's header
      and other transactions. */
  lemma StoredBlocksKeptIff(env: Env, genesis: Hash, c: Chain, snaps: seq<Snapshot>, b: Block)
    requires CollisionFree(env) && Rooted(env, genesis, c)
    ensures Keeps(c.blocks, Submit(env, c, snaps, b).0.blocks) <==> !Overwrites(env, c, snaps, b)
  {
    var h := env.hashOf(b.header);
    SubmitTip(env, genesis, c, snaps, b);
    if h in c.blocks { assert env.hashOf(c.blocks[h].header) == env.hashOf(b.header); }
  }

  /** Such a block is accepted, and neither tip nor tip work nor index of the tip's chain moves. */
  lemma OverwritingIsAccepted(env: Env, genesis: Hash, c: Chain, accepted: set<Hash>, snaps: seq<Snapshot>, b: Block)
    requires CollisionFree(env) && Inv(env, genesis, c, accepted) && Overwrites(env, c, snaps, b)
    requires Descends(HeadersOf(c.blocks), c.tip.value.hash, Tip(b.header.height, env.hashOf(b.header)))
    ensures Submit(env, c, snaps, b) == (Stored(env, c, b), true)
  {
    var s, h := HeadersOf(c.blocks), env.hashOf(b.header);
    assert env.hashOf(c.blocks[h].header) == env.hashOf(b.header);
    assert s[h] == b.header;
    assert NewWork(c, b) == ChainWork(s, h);
    AncestorNotHeavier(s, c.tip.value.hash, b.header.height);
  }

  // An ancestor has no more work than its descendant.
  lemma {:induction false} AncestorNotHeavier(s: Store, h: Hash, k: nat)
    requires Closed(s) && h in s && k <= s[h].height
    ensures AncestorAt(s, h, k).Some? && ChainWork(s, AncestorAt(s, h, k).value) <= ChainWork(s, h)
    decreases s[h].height
  {
    if s[h].height > k {
      AncestorNotHeavier(s, s[h].prev, k);
      WorkBounds(s[h].bits);
      ChainWorkIsCappedSum(s, s[h].prev);
      CumulativeSaturates(ChainWork(s, s[h].prev), Work64(s[h].bits));
    }
  }

  // ----- accepted and refused blocks on the tip's chain -----

  // Every block above genesis up to this one was accepted.
  ghost predicate AllAccepted(s: Store, h: Hash, accepted: set<Hash>)
    requires Closed(s) && h in s
    decreases s[h].height
  {
    s[h].height > 0 ==> h in accepted && AllAccepted(s, s[h].prev, accepted)
  }

  lemma {:induction false} AllAcceptedStable(s: Store, bigger: Store, h: Hash, accepted: set<Hash>, more: set<Hash>)
    requires Closed(s) && Closed(bigger) && h in s && accepted <= more
    requires forall k :: k in s ==> k in bigger && bigger[k] == s[k]
    ensures AllAccepted(s, h, accepted) ==> AllAccepted(bigger, h, more)
    decreases s[h].height
  {
    if s[h].height > 0 { AllAcceptedStable(s, bigger, s[h].prev, accepted, more); }
  }

  // A hash at or above a block's height makes no difference to its ancestry.
  lemma {:induction false} AllAcceptedBelow(s: Store, bigger: Store, h: Hash, accepted: set<Hash>, x: Hash)
    requires Closed(s) && Closed(bigger) && h in s && x in bigger && bigger[x].height > s[h].height
    requires forall k :: k in s ==> k in bigger && bigger[k] == s[k]
    ensures AllAccepted(bigger, h, accepted + {x}) <==> AllAccepted(s, h, accepted)
    decreases s[h].height
  {
    assert h != x;
    if s[h].height > 0 { AllAcceptedBelow(s, bigger, s[h].prev, accepted, x); }
  }

  // It overtakes the tip on top of a chain that holds a block which was never accepted.
  ghost predicate Adopts(env: Env, c: Chain, accepted: set<Hash>, snaps: seq<Snapshot>, b: Block)
    requires c.anchor.Some? && Closed(HeadersOf(c.blocks))
  {
    Overtakes(env, c, snaps, b) && !(b.header.prev in c.blocks && AllAccepted(HeadersOf(c.blocks), b.header.prev, accepted))
  }

  /** Given that the tip's chain consists of accepted blocks, it still does after a submission,
      exactly if the tip did not move to a block whose parent's chain holds a refused one. */
  lemma TipAcceptedIff(env: Env, genesis: Hash, c: Chain, accepted: set<Hash>, snaps: seq<Snapshot>, b: Block)
    requires CollisionFree(env) && Rooted(env, genesis, c) && AllAccepted(HeadersOf(c.blocks), c.tip.value.hash, accepted)
    ensures var c' := Submit(env, c, snaps, b).0;
            && Rooted(env, genesis, c')
            && (AllAccepted(HeadersOf(c'.blocks), c'.tip.value.hash, accepted + Accepted(env, c, snaps, b)) <==>
                !Adopts(env, c, accepted, snaps, b))
  {
    var c', s, more := Submit(env, c, snaps, b).0, HeadersOf(c.blocks), accepted + Accepted(env, c, snaps, b);
    SubmitTip(env, genesis, c, snaps, b);
    SubmitKeepsRooted(env, genesis, c, snaps, b);
    assert c.tip.value.hash in s;
    if Lands(env, c, snaps, b) {
      StoredGrows(env, genesis, c, b);
      var s', h := HeadersOf(c'.blocks), env.hashOf(b.header);
      assert b.header.prev in s && s'[h] == b.header;
      if Extends(env, c, snaps, b) || Overtakes(env, c, snaps, b) {
        assert more == accepted + {h};
        AllAcceptedBelow(s, s', b.header.prev, accepted, h);
      } else {
        AllAcceptedStable(s, s', c.tip.value.hash, accepted, more);
      }
    } else {
      AllAcceptedStable(s, HeadersOf(c'.blocks), c.tip.value.hash, accepted, more);
    }
  }

  /** A block that the fast path refuses is stored all the same, and its first admissible child
      brings it in: whatever the child, if it outweighs the tip it becomes the tip, with the
      refused block as its parent. */
  lemma RefusedIsAdopted(env: Env, genesis: Hash, c: Chain, accepted: set<Hash>, snaps: seq<Snapshot>, b1: Block, b2: Block)
    requires CollisionFree(env) && Inv(env, genesis, c, accepted) && env.hashOf(b1.header) !in accepted
    requires Lands(env, c, snaps, b1) && ExtendsTip(c, b1) && RunTxs(c.ledger, b1.txs).Err?
    requires b2.header.prev == env.hashOf(b1.header)
    requires Lands(env, Stored(env, c, b1), snaps, b2) && NewWork(Stored(env, c, b1), b2) > c.tipWork
    ensures Submit(env, c, snaps, b1) == (Stored(env, c, b1), false)
    ensures var (c', ok) := Submit(env, Stored(env, c, b1), snaps, b2);
            && ok && c'.tip == Some(Tip(b2.header.height, env.hashOf(b2.header)))
            && Rooted(env, genesis, c')
            && Descends(HeadersOf(c'.blocks), env.hashOf(b2.header), Tip(b1.header.height, env.hashOf(b1.header)))
            && !AllAccepted(HeadersOf(c'.blocks), env.hashOf(b2.header), accepted + {env.hashOf(b2.header)})
  {
    var c1, h1, h2 := Stored(env, c, b1), env.hashOf(b1.header), env.hashOf(b2.header);
    StoredInv(env, genesis, c, accepted, b1);
    StoredGrows(env, genesis, c1, b2);
    TipChildDescends(c1, h1);
    StoredDescends(env, genesis, c1, b2, h1, c.anchor.value);
    SubmitTip(env, genesis, c1, snaps, b2);
    SubmitKeepsRooted(env, genesis, c1, snaps, b2);
    ChildOf(HeadersOf(Stored(env, c1, b2).blocks), h2, h1, c.anchor.value, accepted);
  }

  // A child descends from its parent, from whatever the parent descends from, and from a
  // refused parent.
  lemma ChildOf(s: Store, h2: Hash, h1: Hash, t: Tip, accepted: set<Hash>)
    requires Closed(s) && h1 in s && h2 in s && s[h2].prev == h1 && s[h2].height == s[h1].height + 1 && s[h1].height > 0
    ensures Descends(s, h1, t) ==> Descends(s, h2, t)
    ensures Descends(s, h2, Tip(s[h1].height, h1))
    ensures h1 !in accepted ==> !AllAccepted(s, h2, accepted + {h2})
  {
    assert h1 != h2;
    assert AncestorAt(s, h2, s[h1].height) == AncestorAt(s, h1, s[h1].height);
  }

  // ----- runs -----

  // A node's history: blocks submitted with the snapshots then on disk, and anchors stored.
  datatype Event = Submitted(block: Block, snaps: seq<Snapshot>) | Finalised(anchor: Tip)

  function After(env: Env, c: Chain, e: Event): Chain {
    match e
    case Submitted(b, snaps) => Submit(env, c, snaps, b).0
    case Finalised(t) => c.(anchor := Some(t))
  }

  function Taken(env: Env, c: Chain, e: Event): set<Hash> {
    match e case Submitted(b, snaps) => Accepted(env, c, snaps, b) case Finalised(_) => {}
  }

  // An anchor may only move up along the tip's own chain.
  ghost predicate Allowed(c: Chain, e: Event) {
    match e
    case Submitted(_, _) => true
    case Finalised(t) =>
      && Closed(HeadersOf(c.blocks)) && c.tip.Some? && c.anchor.Some?
      && t.height >= c.anchor.value.height && Descends(HeadersOf(c.blocks), c.tip.value.hash, t)
  }

  // An accepted block that the new anchor lets in and the old one shut out outweighs the tip.
  ghost predicate Outweighed(c: Chain, accepted: set<Hash>, t: Tip)
    requires Closed(HeadersOf(c.blocks)) && c.anchor.Some?
  {
    exists h :: h in accepted && h in c.work && c.work[h] > c.tipWork
      && Descends(HeadersOf(c.blocks), h, t) && !Descends(HeadersOf(c.blocks), h, c.anchor.value)
  }

  /** Storing any anchor, higher or lower, keeps the invariant exactly when it lies on the tip's
      chain and lets in no accepted block that outweighs the tip. */
  lemma AnchorMovesIff(env: Env, genesis: Hash, c: Chain, accepted: set<Hash>, t: Tip)
    requires Inv(env, genesis, c, accepted)
    ensures Inv(env, genesis, c.(anchor := Some(t)), accepted) <==>
            Descends(HeadersOf(c.blocks), c.tip.value.hash, t) && !Outweighed(c, accepted, t)
  {
    var c', s := c.(anchor := Some(t)), HeadersOf(c.blocks);
    assert Tree(env, genesis, c');
    assert TipAnchored(c') <==> Descends(s, c.tip.value.hash, t);
    HeaviestMovesIff(c, accepted, t);
  }

  lemma HeaviestMovesIff(c: Chain, accepted: set<Hash>, t: Tip)
    requires Closed(HeadersOf(c.blocks)) && c.anchor.Some? && Heaviest(c, accepted)
    ensures Heaviest(c.(anchor := Some(t)), accepted) <==> !Outweighed(c, accepted, t)
  {
    var c', s := c.(anchor := Some(t)), HeadersOf(c.blocks);
    if Outweighed(c, accepted, t) {
      var h :| h in accepted && h in c.work && c.work[h] > c.tipWork && Descends(s, h, t) && !Descends(s, h, c.anchor.value);
      assert !(Descends(HeadersOf(c'.blocks), h, c'.anchor.value) ==> c'.work[h] <= c'.tipWork);
    }
  }

  // An anchor raised along the tip's chain lets nothing new in.
  lemma RaisedAnchor(c: Chain, accepted: set<Hash>, t: Tip)
    requires Closed(HeadersOf(c.blocks)) && c.tip.Some? && c.anchor.Some?
    requires Descends(HeadersOf(c.blocks), c.tip.value.hash, c.anchor.value)
    requires t.height >= c.anchor.value.height && Descends(HeadersOf(c.blocks), c.tip.value.hash, t)
    ensures !Outweighed(c, accepted, t)
  {
    var s, was := HeadersOf(c.blocks), c.anchor.value;
    AncestorThrough(s, c.tip.value.hash, t.height, was.height);
    forall h | Descends(s, h, t) ensures Descends(s, h, was) {
      AncestorThrough(s, h, t.height, was.height);
    }
  }

  lemma EventKeepsInv(env: Env, genesis: Hash, c: Chain, accepted: set<Hash>, e: Event)
    requires CollisionFree(env) && Inv(env, genesis, c, accepted) && Allowed(c, e)
    ensures Inv(env, genesis, After(env, c, e), accepted + Taken(env, c, e))
    ensures After(env, c, e).tipWork >= c.tipWork
  {
    match e {
      case Submitted(b, snaps) => SubmitKeepsInv(env, genesis, c, accepted, snaps, b);
      case Finalised(t) =>
        AnchorMovesIff(env, genesis, c, accepted, t);
        RaisedAnchor(c, accepted, t);
        assert accepted + {} == accepted;
    }
  }

  ghost predicate AllowedRun(env: Env, c: Chain, events: seq<Event>)
    decreases |events|
  {
    events != [] ==> Allowed(c, events[0]) && AllowedRun(env, After(env, c, events[0]), events[1..])
  }

  // The final state, and the hashes of all blocks accepted on the way.
  function Run(env: Env, c: Chain, accepted: set<Hash>, events: seq<Event>): (Chain, set<Hash>)
    decreases |events|
  {
    if events == [] then (c, accepted)
    else Run(env, After(env, c, events[0]), accepted + Taken(env, c, events[0]), events[1..])
  }

  lemma {:induction false} RunKeepsInv(env: Env, genesis: Hash, c: Chain, accepted: set<Hash>, events: seq<Event>)
    requires CollisionFree(env) && Inv(env, genesis, c, accepted) && AllowedRun(env, c, events)
    ensures Inv(env, genesis, Run(env, c, accepted, events).0, Run(env, c, accepted, events).1)
    ensures Run(env, c, accepted, events).0.tipWork >= c.tipWork
    decreases |events|
  {
    if events != [] {
      EventKeepsInv(env, genesis, c, accepted, events[0]);
      RunKeepsInv(env, genesis, After(env, c, events[0]), accepted + Taken(env, c, events[0]), events[1..]);
    }
  }

  // At every moment of the run the tip's chain consists of accepted blocks.
  ghost predicate AcceptedThroughout(env: Env, c: Chain, accepted: set<Hash>, events: seq<Event>)
    decreases |events|
  {
    && Closed(HeadersOf(c.blocks)) && c.tip.Some? && c.tip.value.hash in c.blocks
    && AllAccepted(HeadersOf(c.blocks), c.tip.value.hash, accepted)
    && (events != [] ==> AcceptedThroughout(env, After(env, c, events[0]), accepted + Taken(env, c, events[0]), events[1..]))
  }

  ghost predicate NeverAdopts(env: Env, c: Chain, accepted: set<Hash>, events: seq<Event>)
    decreases |events|
  {
    events != [] ==>
      && (events[0].Submitted? ==> c.anchor.Some? && Closed(HeadersOf(c.blocks)) && !Adopts(env, c, accepted, events[0].snaps, events[0].block))
      && NeverAdopts(env, After(env, c, events[0]), accepted + Taken(env, c, events[0]), events[1..])
  }

  /** Over every run, wherever anchors are put, the tip's chain consists of accepted blocks
      throughout exactly when no submission of the run brings in a refused one. */
  lemma {:induction false} AcceptedThroughoutIff(env: Env, genesis: Hash, c: Chain, accepted: set<Hash>, events: seq<Event>)
    requires CollisionFree(env) && Rooted(env, genesis, c) && AllAccepted(HeadersOf(c.blocks), c.tip.value.hash, accepted)
    ensures AcceptedThroughout(env, c, accepted, events) <==> NeverAdopts(env, c, accepted, events)
    decreases |events|
  {
    if events != [] {
      var e := events[0];
      var c', more := After(env, c, e), accepted + Taken(env, c, e);
      match e {
        case Submitted(b, snaps) => TipAcceptedIff(env, genesis, c, accepted, snaps, b);
        case Finalised(_) => assert more == accepted;
      }
      assert Rooted(env, genesis, c');
      if AllAccepted(HeadersOf(c'.blocks), c'.tip.value.hash, more) { AcceptedThroughoutIff(env, genesis, c', more, events[1..]); }
    }
  }

  // ----- the start -----

  function WithGenesis(env: Env, c: Chain, g: Block): Chain {
    var h, w := env.hashOf(g.header), Work64(g.header.bits);
    c.(blocks := c.blocks[h := g], hashAt := c.hashAt[0 := h], work := c.work[h := w],
       tip := Some(Tip(0, h)), tipWork := w, anchor := Some(Tip(0, h)))
  }

  function GenesisChain(env: Env, g: Block, l: Ledger): Chain {
    WithGenesis(env, Chain(map[], map[], map[], map[], None, 0, None, l), g)
  }

  // `stored` is the chain id of the genesis record already in the database, if there is one;
  // then nothing is written, and another chain's record is an error.
  method EnsureGenesisStored(db: Db, env: Env, g: Block, stored: Option<string>) returns (err: Option<string>)
    modifies db`blocks, db`hashAt, db`work, db`tip, db`tipWork, db`anchor
    ensures ChainOf(db) == if stored.Some? then old(ChainOf(db)) else WithGenesis(env, old(ChainOf(db)), g)
    ensures err.None? <==> stored.None? || stored.value == env.chainId
  {
    if stored.Some? {
      return if stored.value != env.chainId then Some("genesis mismatch") else None;
    }
    var h := env.hashOf(g.header);
    db.blocks := db.blocks[h := g];
    db.hashAt := db.hashAt[0 := h];
    db.tip := Some(Tip(0, h));
    db.anchor := Some(Tip(0, h));
    var w := ComputeWork64(g.header.bits);
    db.work := db.work[h := w];
    db.tipWork := w;
    return None;
  }

  /** Heaviest anchored chain. In every run from genesis: stored blocks form a tree under the
      genesis block; each block's work is the 64-bit capped sum along its ancestry; the tip
      descends from the anchor; and no block accepted so far that descends from the anchor has
      more work than the tip. */
  lemma HeaviestAnchoredChain(env: Env, g: Block, l: Ledger, events: seq<Event>)
    requires CollisionFree(env) && g.header.height == 0
    requires AllowedRun(env, GenesisChain(env, g, l), events)
    ensures var (c, accepted) := Run(env, GenesisChain(env, g, l), {}, events);
            var s := HeadersOf(c.blocks);
            && Closed(s)
            && (forall h :: h in s ==> AncestorAt(s, h, 0) == Some(env.hashOf(g.header)))
            && (forall h :: h in s ==> h in c.work && c.work[h] == if TotalWork(s, h) <= MaxWork then TotalWork(s, h) else MaxWork)
            && TipAnchored(c)
            && Heaviest(c, accepted)
  {
    var c0, genesis := GenesisChain(env, g, l), env.hashOf(g.header);
    GenesisInv(env, g, l);
    RunKeepsInv(env, genesis, c0, {}, events);
    var (c, accepted) := Run(env, c0, {}, events);
    var s := HeadersOf(c.blocks);
    forall h | h in s
      ensures AncestorAt(s, h, 0) == Some(genesis)
      ensures c.work[h] == if TotalWork(s, h) <= MaxWork then TotalWork(s, h) else MaxWork
    {
      AncestorExists(s, h, 0);
      ChainWorkIsCappedSum(s, h);
    }
  }

  lemma GenesisInv(env: Env, g: Block, l: Ledger)
    requires g.header.height == 0
    ensures Inv(env, env.hashOf(g.header), GenesisChain(env, g, l), {})
  {
    assert HeadersOf(GenesisChain(env, g, l).blocks) == map[env.hashOf(g.header) := g.header];
  }

  // ----- every stored block was checked -----

  ghost predicate Checked(env: Env, b: Block) {
    && b.header.chainId == env.chainId && LimitsOk(env.cfg, b.txs) && BasicOk(env.cfg, b.txs)
    && MeetsTarget(env.hashOf(b.header), b.header.bits)
  }

  ghost predicate Vetted(env: Env, blocks: map<Hash, Block>) {
    forall h :: h in blocks && blocks[h].header.height > 0 ==> Checked(env, blocks[h])
  }

  lemma ChooseBlocks(env: Env, c: Chain, snaps: seq<Snapshot>, b: Block)
    ensures Choose(env, c, snaps, b).0.blocks == Stored(env, c, b).blocks
  {
  }

  /** In every run from genesis, whatever was accepted or rejected: each stored block but the
      genesis block is of this chain, keeps the limits and the basic rules, and has a hash that
      meets its own target. */
  lemma {:induction false} StoredBlocksAreVetted(env: Env, c: Chain, accepted: set<Hash>, events: seq<Event>)
    requires Vetted(env, c.blocks)
    ensures Vetted(env, Run(env, c, accepted, events).0.blocks)
    decreases |events|
  {
    if events != [] {
      match events[0] {
        case Submitted(b, snaps) => ChooseBlocks(env, c, snaps, b);
        case Finalised(_) =>
      }
      StoredBlocksAreVetted(env, After(env, c, events[0]), accepted + Taken(env, c, events[0]), events[1..]);
    }
  }

  /** So every child has strictly more total work than its parent. */
  lemma WorkStrictlyGrows(env: Env, blocks: map<Hash, Block>, h: Hash)
    requires Vetted(env, blocks) && Closed(HeadersOf(blocks)) && h in blocks && blocks[h].header.height > 0
    ensures TotalWork(HeadersOf(blocks), h) > TotalWork(HeadersOf(blocks), blocks[h].header.prev)
  {
    assert Checked(env, blocks[h]);
    WorkBounds(blocks[h].header.bits);
  }

  // ----- where a stored block came from -----

  // The i-th event submitted this block, at a moment when its parent was stored one height below it,
  // its bits were those the difficulty rule then wanted, if it wanted any, and the fork verdict let
  // it through.
  ghost predicate CameIn(env: Env, c: Chain, accepted: set<Hash>, events: seq<Event>, i: nat, b: Block)
    requires i < |events|
  {
    var now := Run(env, c, accepted, events[..i]).0;
    && events[i].Submitted? && events[i].block == b && b.header.height > 0
    && b.header.prev in now.blocks && now.blocks[b.header.prev].header.height == b.header.height - 1
    && (env.nextBits(now.hashAt, now.blocks, b.header.height).None?
        || env.nextBits(now.hashAt, now.blocks, b.header.height) == Some(b.header.bits))
    && ForkVerdict(env, now, events[i].snaps, b)
  }

  lemma SubmitStores(env: Env, c: Chain, snaps: seq<Snapshot>, b: Block)
    ensures Submit(env, c, snaps, b).0.blocks == if Lands(env, c, snaps, b) then c.blocks[env.hashOf(b.header) := b] else c.blocks
  {
    ChooseBlocks(env, c, snaps, b);
  }

  /** In every run each stored block was there at the start, or came in by a submission that met
      height, difficulty and fork validation as they stood at that moment. */
  lemma {:induction false} StoredBlocksCameIn(env: Env, c: Chain, accepted: set<Hash>, events: seq<Event>, h: Hash)
    requires h in Run(env, c, accepted, events).0.blocks
    ensures var b := Run(env, c, accepted, events).0.blocks[h];
            (h in c.blocks && c.blocks[h] == b) || exists i :: 0 <= i < |events| && CameIn(env, c, accepted, events, i, b)
    decreases |events|
  {
    if events != [] {
      var e, rest := events[0], events[1..];
      var c', more, b := After(env, c, e), accepted + Taken(env, c, e), Run(env, c, accepted, events).0.blocks[h];
      StoredBlocksCameIn(env, c', more, rest, h);
      if i :| 0 <= i < |rest| && CameIn(env, c', more, rest, i, b) {
        LaterCameIn(env, c, accepted, events, i, b);
      } else if !(h in c.blocks && c.blocks[h] == b) {
        SubmitStores(env, c, e.snaps, e.block);
        assert events[..0] == [];
        assert CameIn(env, c, accepted, events, 0, b);
      }
    }
  }

  lemma LaterCameIn(env: Env, c: Chain, accepted: set<Hash>, events: seq<Event>, i: nat, b: Block)
    requires i + 1 < |events|
    requires CameIn(env, After(env, c, events[0]), accepted + Taken(env, c, events[0]), events[1..], i, b)
    ensures CameIn(env, c, accepted, events, i + 1, b)
  {
    assert events[..i + 1][0] == events[0] && events[..i + 1][1..] == events[1..][..i];
  }

  // ----- what that means for every stored transaction -----

  // Signed by its own sender, paid for, and if a claim, claimed by the sender with a claim signature.
  ghost predicate Authorised(cfg: Config, tx: Tx) {
    && tx.from != "" && tx.pubKey == tx.from && tx.sig != "" && cfg.sigOk(tx)
    && tx.fee >= EstimateFee(180 + 80 * |tx.outputs|, exists i :: 0 <= i < |tx.outputs| && tx.outputs[i].p != "" && tx.outputs[i].r != "", cfg.fees)
    && (tx.txType == "otap_claim" ==>
          tx.claim.Some? && tx.claim.value.p != "" && tx.claim.value.to == tx.from && tx.claim.value.claimSig != "" && cfg.claimSigOk(tx))
  }

  /** No forged spend and no money from nowhere: in every run from genesis each transaction of a stored
      block but the genesis block is authorised by its sender, or it is the one coinbase in front of
      a block under issuance, with one output of exactly the block reward; and a block under
      issuance has that coinbase. */
  lemma StoredTransactionsAreAuthorised(env: Env, g: Block, l: Ledger, events: seq<Event>, h: Hash, i: nat)
    requires g.header.height == 0
    requires var c := Run(env, GenesisChain(env, g, l), {}, events).0;
             h in c.blocks && c.blocks[h].header.height > 0
    ensures var b := Run(env, GenesisChain(env, g, l), {}, events).0.blocks[h];
            && b.header.chainId == env.chainId
            && (env.cfg.issuance ==> |b.txs| > 0 && b.txs[0].txType == "coinbase")
            && (i < |b.txs| ==>
                  if i == 0 && env.cfg.issuance then |b.txs[i].outputs| == 1 && b.txs[i].outputs[0].amount == env.cfg.blockReward
                  else b.txs[i].txType != "coinbase" && Authorised(env.cfg, b.txs[i]))
  {
    StoredBlocksAreVetted(env, GenesisChain(env, g, l), {}, events);
    var b := Run(env, GenesisChain(env, g, l), {}, events).0.blocks[h];
    assert Checked(env, b);
    if i < |b.txs| && !(i == 0 && env.cfg.issuance) { assert SpendOk(env.cfg, b.txs[i]); }
  }

  // ----- without a stored anchor -----

  /** A node without a stored anchor switches exactly to chains that have the genesis block of its
      index, and not at all if there is none. */
  lemma SwitchWithoutAnchorIff(env: Env, c: Chain, snaps: seq<Snapshot>, tip: Tip)
    requires Closed(HeadersOf(c.blocks)) && c.anchor.None?
    requires tip.hash in c.blocks && c.blocks[tip.hash].header.height == tip.height
    ensures Switch(env, c, snaps, tip).Some? <==>
            0 in c.hashAt && c.hashAt[0] in c.blocks && AncestorAt(HeadersOf(c.blocks), tip.hash, 0) == Some(c.hashAt[0])
  {
    BackIsAncestor(c.blocks, tip.hash, tip.height);
    if 0 in c.hashAt && c.hashAt[0] in c.blocks {
      var fin := Tip(0, c.hashAt[0]);
      assert AnchorOf(c) == Some(fin);
      assert SwitchPath(c.blocks, tip, fin).Some? <==> Back(c.blocks, tip.hash, tip.height) == Some(fin.hash);
    } else {
      assert AnchorOf(c) == None;
    }
  }

  /** A switch to height zero below the anchor goes through exactly for the anchor's own hash, if stored. */
  lemma SwitchToZeroIff(env: Env, c: Chain, snaps: seq<Snapshot>, tip: Tip)
    requires c.anchor.Some? && tip.height == 0 < c.anchor.value.height
    ensures Switch(env, c, snaps, tip).Some? <==> tip.hash in c.blocks && tip.hash == c.anchor.value.hash
  {
  }
}

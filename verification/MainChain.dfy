/** How the height index and the ledger follow the tip: kept by a switch of the main chain,
    lost when a losing sibling is stored. */
module MainChain {
  import opened Wrappers
  import opened ChainTypes
  import opened LedgerSpec
  import opened StateReplay
  import opened Ancestry
  import opened NodeTypes
  import opened ForkChoice
  import opened BlockSubmission
  import opened Reorg

  // Every height from `from` to the tip's is indexed to the tip's ancestor there.
  ghost predicate FollowsIn(s: Store, hashAt: map<nat, Hash>, tip: Tip, from: nat)
    requires Linked(s)
  {
    forall k :: from <= k <= tip.height ==> k in hashAt && AncestorAt(s, tip.hash, k) == Some(hashAt[k])
  }

  ghost predicate Follows(c: Chain, tip: Tip, from: nat)
    requires Closed(HeadersOf(c.blocks))
  {
    FollowsIn(HeadersOf(c.blocks), c.hashAt, tip, from)
  }

  lemma FollowsParent(c: Chain, tip: Tip, h: nat)
    requires Closed(HeadersOf(c.blocks)) && Follows(c, tip, 1) && 2 <= h <= tip.height
    ensures h in c.hashAt && c.hashAt[h] in c.blocks && h - 1 in c.hashAt
    ensures c.blocks[c.hashAt[h]].header.prev == c.hashAt[h - 1]
  {
    var s, a := HeadersOf(c.blocks), c.hashAt[h];
    assert AncestorAt(s, tip.hash, h) == Some(a);
    assert AncestorAt(s, tip.hash, h - 1) == Some(c.hashAt[h - 1]);
    AncestorThrough(s, tip.hash, h, h - 1);
    assert AncestorAt(s, a, h - 1) == AncestorAt(s, s[a].prev, h - 1);
  }

  /** An index that follows the tip from height one is linked, and lists the tip's ancestry. */
  lemma FollowingIsAncestry(c: Chain, tip: Tip)
    requires Closed(HeadersOf(c.blocks)) && Follows(c, tip, 1)
    requires tip.height > 0 && tip.hash in c.blocks && c.blocks[tip.hash].header.height == tip.height
    ensures IndexLinked(c.blocks, c.hashAt, tip.height)
    ensures PathUp(HeadersOf(c.blocks), tip.hash, 1) == Some(Indexed(c.hashAt, tip.height))
  {
    var s := HeadersOf(c.blocks);
    forall h | 1 <= h <= tip.height ensures c.hashAt[h] in s && s[c.hashAt[h]].height == h {
      assert AncestorAt(s, tip.hash, h) == Some(c.hashAt[h]);
    }
    forall h | 2 <= h <= tip.height ensures c.blocks[c.hashAt[h]].header.prev == c.hashAt[h - 1] {
      FollowsParent(c, tip, h);
    }
    assert AncestorAt(s, tip.hash, tip.height) == Some(tip.hash);
    var p := Indexed(c.hashAt, tip.height);
    forall i | 0 < i < |p| ensures s[p[i]].prev == p[i - 1] {
      FollowsParent(c, tip, i + 1);
    }
    PathUnique(s, p, 1);
  }

  /** A successful switch makes the index follow the new tip from the anchor up, and from
      height one if it followed the anchor below it. */
  lemma SwitchFollows(env: Env, c: Chain, snaps: seq<Snapshot>, tip: Tip)
    requires Closed(HeadersOf(c.blocks)) && c.anchor.Some?
    requires tip.hash in c.blocks && c.blocks[tip.hash].header.height == tip.height && tip.height > 0
    requires Switch(env, c, snaps, tip).Some?
    ensures var c' := Switch(env, c, snaps, tip).value;
            && c'.blocks == c.blocks
            && Follows(c', tip, c.anchor.value.height)
            && (Follows(c, c.anchor.value, 1) ==> Follows(c', tip, 1))
  {
    var c', s, fin := Switch(env, c, snaps, tip).value, HeadersOf(c.blocks), c.anchor.value;
    SwitchIff(env, c, snaps, tip);
    SwitchFrame(env, c, snaps, tip);
    forall k: nat
      ensures k <= tip.height && (fin.height <= k || (1 <= k && Follows(c, fin, 1))) ==>
        k in c'.hashAt && AncestorAt(s, tip.hash, k) == Some(c'.hashAt[k])
    {
      SwitchIndexExact(env, c, snaps, tip, k);
      if k < fin.height { AncestorThrough(s, tip.hash, fin.height, k); }
    }
  }

  // The snapshot a switch would restore is one the rewritten index leads to: none, one of
  // height zero (which is not used), or a truthful one not above the tip.
  ghost predicate UsableLast(env: Env, c: Chain, snaps: seq<Snapshot>, tip: Tip) {
    snaps != [] && snaps[|snaps| - 1].height > 0 ==>
      var last := snaps[|snaps| - 1];
      last.height <= tip.height && NonNegative(last.ledger.bal) && Truthful(c.blocks, c.hashAt, env.allocs, last)
  }

  lemma RebuiltFromGenesis(env: Env, c: Chain, snaps: seq<Snapshot>, tip: Tip)
    requires DistinctAddresses(env.allocs) && UsableLast(env, c, snaps, tip)
    ensures Rebuilt(c.blocks, c.hashAt, snaps, env.allocs, tip.height) == ReplayMain(c.blocks, c.hashAt, Genesis(env.allocs), 1, tip.height)
  {
    GenesisWaysAgree(env.allocs);
    if snaps != [] && snaps[|snaps| - 1].height > 0 {
      var last := snaps[|snaps| - 1];
      assert Clamped(last.ledger.bal) == last.ledger.bal;
      ReplayMainSplit(c.blocks, c.hashAt, Genesis(env.allocs), 1, last.height, tip.height);
    }
  }

  /** The rebuild that a switch runs, and whose result it discards, is the replay from genesis
      along the new tip's ancestry, success or failure; so the ledger is that of the whole
      ancestry if and only if every block of it applies. */
  lemma SwitchRebuildsLedger(env: Env, c: Chain, snaps: seq<Snapshot>, tip: Tip)
    requires Closed(HeadersOf(c.blocks)) && c.anchor.Some? && DistinctAddresses(env.allocs)
    requires tip.hash in c.blocks && c.blocks[tip.hash].header.height == tip.height && tip.height > 0
    requires Switch(env, c, snaps, tip).Some? && Follows(c, c.anchor.value, 1)
    requires UsableLast(env, Switch(env, c, snaps, tip).value, snaps, tip)
    ensures var c', p := Switch(env, c, snaps, tip).value, PathUp(HeadersOf(c.blocks), tip.hash, 1);
            && p.Some?
            && AllStored(c.blocks, p.value)
            && Rebuilt(c'.blocks, c'.hashAt, snaps, env.allocs, tip.height) == Replay(Genesis(env.allocs), BlocksAlong(c.blocks, p.value))
            && c'.ledger == Replay(Genesis(env.allocs), BlocksAlong(c.blocks, p.value)).ledger
  {
    var c' := Switch(env, c, snaps, tip).value;
    SwitchFollows(env, c, snaps, tip);
    FollowingIsAncestry(c', tip);
    RebuiltFromGenesis(env, c', snaps, tip);
    FollowingReplays(c', tip, Genesis(env.allocs));
  }

  // Replaying an index that follows the tip is replaying the tip's ancestry.
  lemma FollowingReplays(c: Chain, tip: Tip, l: Ledger)
    requires IndexLinked(c.blocks, c.hashAt, tip.height)
    ensures AllStored(c.blocks, Indexed(c.hashAt, tip.height))
    ensures ReplayMain(c.blocks, c.hashAt, l, 1, tip.height) == Replay(l, BlocksAlong(c.blocks, Indexed(c.hashAt, tip.height)))
  {
    var bs := BlocksAlong(c.blocks, Indexed(c.hashAt, tip.height));
    forall i | 0 <= i < |bs| ensures BlockAt(c.blocks, c.hashAt, 1 + i) == Some(bs[i]) {
      assert 1 <= i + 1 <= tip.height;
    }
    ReplayMainIsReplay(c.blocks, c.hashAt, l, 1, bs);
  }

  // ----- when the index keeps following the tip -----

  // Writing one height of the index, in a store that may have grown.
  lemma PutFollowsIff(s: Store, bigger: Store, hashAt: map<nat, Hash>, t: Tip, k: nat, h: Hash)
    requires Closed(s) && Linked(bigger) && (forall x :: x in s ==> x in bigger && bigger[x] == s[x])
    requires t.hash in s && FollowsIn(s, hashAt, t, 1) && k > 0
    ensures FollowsIn(bigger, hashAt[k := h], t, 1) <==> k > t.height || AncestorAt(s, t.hash, k) == Some(h)
  {
    forall j: nat ensures AncestorAt(bigger, t.hash, j) == AncestorAt(s, t.hash, j) {
      AncestorStable(s, bigger, t.hash, j);
    }
  }

  /** Storing a block takes over its height in the index: it goes on following a given tip
      exactly when the block is above that tip or on its chain. */
  lemma StoredFollowsIff(env: Env, genesis: Hash, c: Chain, b: Block, t: Tip)
    requires CollisionFree(env) && Tree(env, genesis, c) && Connects(env, c, b) && b.header.height > 0
    requires t.hash in c.blocks && Follows(c, t, 1)
    ensures Closed(HeadersOf(Stored(env, c, b).blocks))
    ensures Follows(Stored(env, c, b), t, 1) <==>
            b.header.height > t.height || AncestorAt(HeadersOf(c.blocks), t.hash, b.header.height) == Some(env.hashOf(b.header))
  {
    var c' := Stored(env, c, b);
    StoredGrows(env, genesis, c, b);
    PutFollowsIff(HeadersOf(c.blocks), HeadersOf(c'.blocks), c.hashAt, t, b.header.height, env.hashOf(b.header));
  }

  // The block is stored but does not become the tip.
  ghost predicate Loses(env: Env, c: Chain, b: Block)
    requires Closed(HeadersOf(Stored(env, c, b).blocks)) && c.anchor.Some?
  {
    && !ExtendsTip(c, b)
    && !(NewWork(c, b) > c.tipWork && Descends(HeadersOf(Stored(env, c, b).blocks), env.hashOf(b.header), c.anchor.value))
  }

  // It loses at or below the tip's height, off the tip's chain.
  ghost predicate Displaces(env: Env, c: Chain, snaps: seq<Snapshot>, b: Block)
    requires Closed(HeadersOf(c.blocks)) && c.tip.Some? && c.anchor.Some?
  {
    && Admissible(env, c, snaps, b) && Connects(env, c, b)
    && 0 < b.header.height <= c.tip.value.height
    && AncestorAt(HeadersOf(c.blocks), c.tip.value.hash, b.header.height) != Some(env.hashOf(b.header))
    && Closed(HeadersOf(Stored(env, c, b).blocks)) && Loses(env, c, b)
  }

  lemma ChildFollows(s: Store, hashAt: map<nat, Hash>, t: Tip, h: Hash)
    requires Closed(s) && t.hash in s && s[t.hash].height == t.height && FollowsIn(s, hashAt, t, 1)
    requires h in s && s[h].prev == t.hash && s[h].height == t.height + 1
    requires t.height + 1 in hashAt && hashAt[t.height + 1] == h
    ensures FollowsIn(s, hashAt, Tip(t.height + 1, h), 1)
  {
    forall k | 1 <= k <= t.height ensures AncestorAt(s, h, k) == AncestorAt(s, t.hash, k) { }
  }

  lemma AdvancedFollows(env: Env, genesis: Hash, c: Chain, accepted: set<Hash>, b: Block)
    requires CollisionFree(env) && Inv(env, genesis, c, accepted) && Connects(env, c, b) && ExtendsTip(c, b)
    requires Follows(c, c.tip.value, 1)
    ensures Closed(HeadersOf(Advanced(env, c, b).blocks))
    ensures Follows(Advanced(env, c, b), Tip(b.header.height, env.hashOf(b.header)), 1)
  {
    var c', h, t := Stored(env, c, b), env.hashOf(b.header), c.tip.value;
    StoredFollowsIff(env, genesis, c, b, t);
    TipKept(env, genesis, c, b);
    ChildFollows(HeadersOf(c'.blocks), c'.hashAt, t, h);
  }

  lemma TipKept(env: Env, genesis: Hash, c: Chain, b: Block)
    requires CollisionFree(env) && Tree(env, genesis, c) && Connects(env, c, b)
    requires c.tip.Some? && c.tip.value.hash in c.blocks
    ensures var s' := HeadersOf(Stored(env, c, b).blocks);
            c.tip.value.hash in s' && s'[c.tip.value.hash] == c.blocks[c.tip.value.hash].header && s'[env.hashOf(b.header)] == b.header
  {
    StoredGrows(env, genesis, c, b);
    assert c.tip.value.hash in HeadersOf(c.blocks);
  }

  lemma SwitchedFollows(env: Env, genesis: Hash, c: Chain, accepted: set<Hash>, snaps: seq<Snapshot>, b: Block)
    requires CollisionFree(env) && Inv(env, genesis, c, accepted) && Connects(env, c, b) && b.header.height > 0
    requires Follows(c, c.tip.value, 1)
    requires Switch(env, Stored(env, c, b), snaps, Tip(b.header.height, env.hashOf(b.header))).Some?
    ensures var t := Tip(b.header.height, env.hashOf(b.header));
            var c' := Switch(env, Stored(env, c, b), snaps, t).value;
            c'.tip == Some(t) && Closed(HeadersOf(c'.blocks)) && Follows(c', t, 1)
  {
    var s, t, fin := Stored(env, c, b), Tip(b.header.height, env.hashOf(b.header)), c.anchor.value;
    StoredGrows(env, genesis, c, b);
    SwitchIff(env, s, snaps, t);
    AnchorFollowed(c);
    StoredFollowsIff(env, genesis, c, b, fin);
    SwitchFollows(env, s, snaps, t);
    SwitchFrame(env, s, snaps, t);
  }

  // An index that follows the tip follows the anchor.
  lemma AnchorFollowed(c: Chain)
    requires Closed(HeadersOf(c.blocks)) && TipAnchored(c) && Follows(c, c.tip.value, 1)
    ensures c.anchor.value.hash in c.blocks && Follows(c, c.anchor.value, 1)
    ensures AncestorAt(HeadersOf(c.blocks), c.anchor.value.hash, c.anchor.value.height) == Some(c.anchor.value.hash)
  {
    var s, fin, tip := HeadersOf(c.blocks), c.anchor.value, c.tip.value;
    forall k | 1 <= k <= fin.height ensures k in c.hashAt && AncestorAt(s, fin.hash, k) == Some(c.hashAt[k]) {
      AncestorThrough(s, tip.hash, fin.height, k);
    }
  }

  /** Over any one submission the index goes on following the tip, the old or the new one, if and
      only if the block does not displace a block of the tip's chain: one that loses the fork
      choice at or below the tip's height, off its chain. */
  lemma SubmitFollowsIff(env: Env, genesis: Hash, c: Chain, accepted: set<Hash>, snaps: seq<Snapshot>, b: Block)
    requires CollisionFree(env) && Inv(env, genesis, c, accepted) && Follows(c, c.tip.value, 1)
    ensures var c' := Submit(env, c, snaps, b).0;
            && c'.tip.Some? && Closed(HeadersOf(c'.blocks))
            && (Follows(c', c'.tip.value, 1) <==> !Displaces(env, c, snaps, b))
  {
    if Admissible(env, c, snaps, b) && b.header.height > 0 && Connects(env, c, b) {
      StoredGrows(env, genesis, c, b);
      var (c', ok) := Choose(env, c, snaps, b);
      assert Submit(env, c, snaps, b) == (c', ok);
      ChooseFollowsIff(env, genesis, c, accepted, snaps, b, c', ok);
    }
  }

  lemma ChooseFollowsIff(env: Env, genesis: Hash, c: Chain, accepted: set<Hash>, snaps: seq<Snapshot>, b: Block, c': Chain, ok: bool)
    requires CollisionFree(env) && Inv(env, genesis, c, accepted) && Follows(c, c.tip.value, 1)
    requires Admissible(env, c, snaps, b) && Connects(env, c, b) && b.header.height > 0
    requires Choose(env, c, snaps, b) == (c', ok)
    ensures c'.tip.Some? && Closed(HeadersOf(c'.blocks))
    ensures Follows(c', c'.tip.value, 1) <==> !Displaces(env, c, snaps, b)
  {
    var s, t := Stored(env, c, b), Tip(b.header.height, env.hashOf(b.header));
    StoredGrows(env, genesis, c, b);
    if ExtendsTip(c, b) {
      TipChildFollows(env, genesis, c, accepted, snaps, b, c', ok);
    } else if NewWork(c, b) > c.tipWork && Switch(env, s, snaps, t).Some? {
      SwitchIff(env, s, snaps, t);
      SwitchedFollows(env, genesis, c, accepted, snaps, b);
    } else {
      SwitchIff(env, s, snaps, t);
      StoredFollowsIff(env, genesis, c, b, c.tip.value);
      assert c' == s;
    }
  }

  lemma TipChildFollows(env: Env, genesis: Hash, c: Chain, accepted: set<Hash>, snaps: seq<Snapshot>, b: Block, c': Chain, ok: bool)
    requires CollisionFree(env) && Inv(env, genesis, c, accepted) && Follows(c, c.tip.value, 1)
    requires Connects(env, c, b) && b.header.height > 0 && ExtendsTip(c, b) && Choose(env, c, snaps, b) == (c', ok)
    ensures c'.tip.Some? && Closed(HeadersOf(c'.blocks)) && Follows(c', c'.tip.value, 1)
  {
    StoredFollowsIff(env, genesis, c, b, c.tip.value);
    AdvancedFollows(env, genesis, c, accepted, b);
  }

  // Replaying an index in which one height was overwritten with another stored block.
  lemma ReplayWithPut(blocks: map<Hash, Block>, hashAt: map<nat, Hash>, n: nat, b: Block, h: Hash, l: Ledger)
    requires AllIndexed(blocks, hashAt, n) && 1 <= b.header.height <= n
    requires AllStored(blocks, Indexed(hashAt, n))
    requires forall k :: 1 <= k <= n && k != b.header.height ==> hashAt[k] != h
    ensures ReplayMain(blocks[h := b], hashAt[b.header.height := h], l, 1, n)
            == Replay(l, BlocksAlong(blocks, Indexed(hashAt, n))[b.header.height - 1 := b])
  {
    var bs := BlocksAlong(blocks, Indexed(hashAt, n))[b.header.height - 1 := b];
    forall i | 0 <= i < |bs| ensures BlockAt(blocks[h := b], hashAt[b.header.height := h], 1 + i) == Some(bs[i]) {
      if i + 1 != b.header.height { assert hashAt[i + 1] != h; }
    }
    ReplayMainIsReplay(blocks[h := b], hashAt[b.header.height := h], l, 1, bs);
  }

  /** After a displacement a rebuild to the tip's height replays the tip's ancestry with the
      losing block in place of the one it displaced. */
  lemma DisplacedReplay(env: Env, genesis: Hash, c: Chain, accepted: set<Hash>, b: Block, l: Ledger)
    requires CollisionFree(env) && Inv(env, genesis, c, accepted) && Follows(c, c.tip.value, 1)
    requires 0 < b.header.height <= c.tip.value.height
    ensures var c', tip := Stored(env, c, b), c.tip.value;
            && IndexLinked(c.blocks, c.hashAt, tip.height)
            && AllStored(c.blocks, Indexed(c.hashAt, tip.height))
            && ReplayMain(c'.blocks, c'.hashAt, l, 1, tip.height)
               == Replay(l, BlocksAlong(c.blocks, Indexed(c.hashAt, tip.height))[b.header.height - 1 := b])
  {
    var tip, h := c.tip.value, env.hashOf(b.header);
    FollowingIsAncestry(c, tip);
    forall k | 1 <= k <= tip.height && k != b.header.height ensures c.hashAt[k] != h {
      assert c.hashAt[k] in c.blocks && c.blocks[c.hashAt[k]].header.height == k;
      assert env.hashOf(c.blocks[c.hashAt[k]].header) == c.hashAt[k];
    }
    ReplayWithPut(c.blocks, c.hashAt, tip.height, b, h, l);
  }

  // ----- a reorganisation inside a run of submissions -----

  // `c'` is what a successful reorganisation of `c` towards `head` leaves.
  ghost predicate ReorgStep(env: Env, c: Chain, c': Chain, finalized: Option<nat>, snaps: seq<Snapshot>, head: Tip, fork: Tip, path: seq<Hash>) {
    && c' == c.(tip := c'.tip, ledger := c'.ledger)
    && Linked(c.headers) && (head.hash in c.headers ==> c.headers[head.hash].height == head.height)
    && Reorganised(env, c', finalized, snaps, CurrentTip(c.tip), head, fork, path, c.tip)
  }

  // What is reorganised could be reorganised.
  lemma ReorgStepCan(env: Env, c: Chain, c': Chain, finalized: Option<nat>, snaps: seq<Snapshot>, head: Tip, fork: Tip, path: seq<Hash>)
    requires ReorgStep(env, c, c', finalized, snaps, head, fork, path) && Linked(HeadersOf(c.blocks)) && fork.height > 0
    requires Permitted(env, c.blocks, c.hashAt, finalized, head.hash)
    ensures CanReorg(env, c, finalized, snaps, CurrentTip(c.tip), head)
  {
    var cur := CurrentTip(c.tip);
    assert IsFork(env, c, cur, head, fork);
    ForkUnique(env, c, cur, head, ForkOf(env, c, cur, head), fork);
  }

  // The tip is the header tip if that is above the fork point, and the old one otherwise.
  lemma ReorgMoves(env: Env, c: Chain, c': Chain, finalized: Option<nat>, snaps: seq<Snapshot>, head: Tip, fork: Tip, path: seq<Hash>)
    requires ReorgStep(env, c, c', finalized, snaps, head, fork, path) && Keyed(env, c.blocks)
    ensures c'.tip == if head.height > fork.height then Some(head) else c.tip
    ensures head.height > fork.height ==> head.hash in c.blocks && c.blocks[head.hash].header.height == head.height
  {
    if head.height > fork.height {
      ReplayPathIsReplay(env, c.headers, c.blocks, Base(env, c', snaps, fork.height).ledger, path);
      PathIsAncestry(c.headers, head.hash, fork.height + 1);
      assert path[|path| - 1] == head.hash;
      assert Matches(env, c.headers, c.blocks[path[|path| - 1]]);
    }
  }

  /** A reorganisation moves tip and ledger and leaves tip work and index. The fork-choice
      invariant survives it exactly when the tip stayed, or the header tip has the old tip's
      work and descends from the anchor. */
  lemma ReorgKeepsInvIff(
    env: Env, genesis: Hash, c: Chain, accepted: set<Hash>, c': Chain, finalized: Option<nat>, snaps: seq<Snapshot>, head: Tip, fork: Tip, path: seq<Hash>)
    requires Inv(env, genesis, c, accepted) && ReorgStep(env, c, c', finalized, snaps, head, fork, path)
    ensures Rooted(env, genesis, c') && c'.tipWork == c.tipWork
    ensures head.height > fork.height ==> head.hash in c.work
    ensures Inv(env, genesis, c', accepted) <==>
            (head.height > fork.height ==> c.work[head.hash] == c.tipWork && Descends(HeadersOf(c.blocks), head.hash, c.anchor.value))
  {
    ReorgMoves(env, c, c', finalized, snaps, head, fork, path);
    assert Tree(env, genesis, c') && Heaviest(c', accepted);
    if head.height > fork.height { assert head.hash in HeadersOf(c.blocks); }
  }

  // One of the two is below `w` and the other is not.
  predicate Between(a: nat, w: nat, b: nat) { a < w <= b || b < w <= a }

  /** What stale tip work does to the next submission, off the tip: of the two chains the heavier
      one ends up as the tip, unless the submitted block's work lies between the recorded and the
      true work of the tip. Then a lighter chain takes the tip, or a heavier one is passed over. */
  lemma StaleWorkMisleadsIff(env: Env, genesis: Hash, c: Chain, snaps: seq<Snapshot>, b: Block)
    requires CollisionFree(env) && Rooted(env, genesis, c) && Lands(env, c, snaps, b)
    requires !ExtendsTip(c, b) && env.hashOf(b.header) != c.tip.value.hash
    requires Closed(HeadersOf(Stored(env, c, b).blocks))
    requires Descends(HeadersOf(Stored(env, c, b).blocks), env.hashOf(b.header), c.anchor.value)
    ensures var h := env.hashOf(b.header);
            var c' := Submit(env, c, snaps, b).0;
            && c'.tip.Some? && h in c'.work && c.tip.value.hash in c'.work
            && ((c'.tip.value.hash == h <==> c'.work[h] > c'.work[c.tip.value.hash]) <==>
                !Between(c.tipWork, NewWork(c, b), c.work[c.tip.value.hash]))
  {
    SubmitTip(env, genesis, c, snaps, b);
    StoredTree(env, genesis, c, b);
    assert c.tip.value.hash in HeadersOf(c.blocks);
  }

  /** And on the tip: a block that extends the new tip records its own true work. If the old tip
      was an accepted block, the invariant is back exactly when the block descends from the
      anchor and has caught up with the old tip; otherwise the recorded tip work has fallen. */
  lemma ReorgThenExtendIff(env: Env, genesis: Hash, c: Chain, accepted: set<Hash>, head: Tip, l: Ledger, b: Block)
    requires CollisionFree(env) && Inv(env, genesis, c, accepted) && c.tip.value.hash in accepted
    requires head.hash in c.blocks && c.blocks[head.hash].header.height == head.height
    requires Connects(env, c, b) && b.header.prev == head.hash
    ensures Closed(HeadersOf(Stored(env, c, b).blocks))
    ensures var h := env.hashOf(b.header);
            Inv(env, genesis, Advanced(env, c.(tip := Some(head), ledger := l), b), accepted + {h}) <==>
            Descends(HeadersOf(Stored(env, c, b).blocks), h, c.anchor.value) && NewWork(c, b) >= c.tipWork
  {
    StoredInv(env, genesis, c, accepted, b);
    ExtendedInvIff(env, genesis, Stored(env, c, b), accepted, env.hashOf(b.header), Advanced(env, c.(tip := Some(head), ledger := l), b));
  }

  // Making a stored block the tip of a state with the invariant.
  lemma ExtendedInvIff(env: Env, genesis: Hash, s: Chain, accepted: set<Hash>, h: Hash, c': Chain)
    requires Inv(env, genesis, s, accepted) && s.tip.value.hash in accepted
    requires h in s.blocks
    requires c'.blocks == s.blocks && c'.work == s.work && c'.anchor == s.anchor
    requires c'.tip == Some(Tip(s.blocks[h].header.height, h)) && h in s.work && c'.tipWork == s.work[h]
    ensures Inv(env, genesis, c', accepted + {h}) <==> Descends(HeadersOf(s.blocks), h, s.anchor.value) && s.work[h] >= s.tipWork
  {
    assert Tree(env, genesis, c');
    if Inv(env, genesis, c', accepted + {h}) {
      var t := s.tip.value.hash;
      assert t in accepted + {h};
      assert Descends(HeadersOf(c'.blocks), t, c'.anchor.value);
    }
  }

  lemma PathAncestor(s: Store, tip: Tip, p: seq<Hash>, k: nat)
    requires Linked(s) && PathUp(s, tip.hash, 1) == Some(p) && |p| == tip.height && 1 <= k <= tip.height
    ensures AncestorAt(s, tip.hash, k) == Some(p[k - 1])
  {
    PathIsAncestry(s, tip.hash, 1);
    assert AncestorAt(s, tip.hash, 1 + (k - 1)) == Some(p[k - 1]);
  }

  // The index lists this path from the given height on.
  ghost predicate Lists(hashAt: map<nat, Hash>, from: nat, path: seq<Hash>) {
    forall i :: 0 <= i < |path| ==> from + i in hashAt && hashAt[from + i] == path[i]
  }

  /** And the index follows the new tip exactly when it already held the path that was replayed
      above the fork point. */
  lemma ReorgFollowsIff(c: Chain, head: Tip, l: Ledger, forkH: nat, path: seq<Hash>)
    requires Closed(HeadersOf(c.blocks)) && IndexLinked(c.blocks, c.hashAt, forkH)
    requires head.height == forkH + |path| && PathUp(HeadersOf(c.blocks), head.hash, 1) == Some(Indexed(c.hashAt, forkH) + path)
    ensures Follows(c.(tip := Some(head), ledger := l), head, 1) <==> Lists(c.hashAt, forkH + 1, path)
  {
    var s, p := HeadersOf(c.blocks), Indexed(c.hashAt, forkH) + path;
    forall k: nat | 1 <= k <= head.height ensures AncestorAt(s, head.hash, k) == Some(p[k - 1]) {
      PathAncestor(s, head, p, k);
    }
    ListedIff(s, c.hashAt, head, forkH, path, p);
  }

  lemma ListedIff(s: Store, hashAt: map<nat, Hash>, head: Tip, forkH: nat, path: seq<Hash>, p: seq<Hash>)
    requires Linked(s) && (forall h :: 1 <= h <= forkH ==> h in hashAt)
    requires head.height == forkH + |path| && p == Indexed(hashAt, forkH) + path
    requires forall k: nat :: 1 <= k <= head.height ==> AncestorAt(s, head.hash, k) == Some(p[k - 1])
    ensures FollowsIn(s, hashAt, head, 1) <==> Lists(hashAt, forkH + 1, path)
  {
    if FollowsIn(s, hashAt, head, 1) {
      forall i | 0 <= i < |path| ensures forkH + 1 + i in hashAt && hashAt[forkH + 1 + i] == path[i] {
        assert AncestorAt(s, head.hash, forkH + 1 + i) == Some(p[forkH + i]);
      }
    }
    if Lists(hashAt, forkH + 1, path) {
      forall k | 1 <= k <= head.height ensures k in hashAt && AncestorAt(s, head.hash, k) == Some(hashAt[k]) {
        if k > forkH { assert path[k - 1 - forkH] == p[k - 1]; }
      }
    }
  }

  // ----- what a reorganisation leaves behind -----

  // `t` lies on the way to the new tip: on the fork point's ancestry up to its height, and on the
  // applied part of the header path above it.
  ghost predicate OnWay(c: Chain, fork: Tip, part: seq<Hash>, t: Tip)
    requires Linked(HeadersOf(c.blocks))
  {
    if t.height <= fork.height then Descends(HeadersOf(c.blocks), fork.hash, t)
    else t.height - fork.height <= |part| && part[t.height - fork.height - 1] == t.hash
  }

  // A sequence of stored hashes, each the parent of the next, above this height.
  ghost predicate Chained(s: Store, fork: nat, part: seq<Hash>) {
    && (forall i :: 0 <= i < |part| ==> part[i] in s && s[part[i]].height == fork + 1 + i)
    && (forall i :: 0 < i < |part| ==> s[part[i]].prev == part[i - 1])
  }

  lemma PartAncestry(s: Store, fork: nat, part: seq<Hash>, k: nat)
    requires Closed(s) && Chained(s, fork, part) && part != [] && fork < k
    ensures AncestorAt(s, part[|part| - 1], k) == if k <= fork + |part| then Some(part[k - fork - 1]) else None
  {
    var last := part[|part| - 1];
    PathUnique(s, part, fork + 1);
    PathIsAncestry(s, last, fork + 1);
    if k <= fork + |part| { assert AncestorAt(s, last, fork + 1 + (k - fork - 1)) == Some(part[k - fork - 1]); }
  }

  lemma BelowPart(s: Store, fork: nat, part: seq<Hash>, k: nat)
    requires Closed(s) && Chained(s, fork, part) && part != [] && k <= fork
    ensures AncestorAt(s, part[|part| - 1], k) == AncestorAt(s, s[part[0]].prev, k)
  {
    PartAncestry(s, fork, part, fork + 1);
    AncestorThrough(s, part[|part| - 1], fork + 1, k);
  }

  // The end of a part of the header path descends from what lies on the way, and nothing else.
  lemma WayDescends(c: Chain, fork: Tip, part: seq<Hash>, t: Tip)
    requires Closed(HeadersOf(c.blocks)) && HangsOn(c.blocks, c.hashAt, fork, part) && part != [] && t.height > 0
    requires fork.height > 0 ==> fork.height in c.hashAt && c.hashAt[fork.height] == fork.hash
    ensures Descends(HeadersOf(c.blocks), part[|part| - 1], t) <==> OnWay(c, fork, part, t)
  {
    HangingIsChained(c, fork, part);
    if t.height > fork.height {
      PartAncestry(HeadersOf(c.blocks), fork.height, part, t.height);
    } else {
      BelowPart(HeadersOf(c.blocks), fork.height, part, t.height);
    }
  }

  lemma HangingIsChained(c: Chain, fork: Tip, part: seq<Hash>)
    requires HangsOn(c.blocks, c.hashAt, fork, part)
    ensures Chained(HeadersOf(c.blocks), fork.height, part)
  {
  }

  // The blocks an attempt applies.
  ghost function Walked(env: Env, c: Chain, finalized: Option<nat>, snaps: seq<Snapshot>, headerTip: Option<Tip>): seq<Hash>
    requires Linked(c.headers) && Linked(HeadersOf(c.blocks))
  {
    if Elsewhere(c.tip, headerTip) && Departs(env, c, finalized, CurrentTip(c.tip), headerTip.value)
    then CarriedPart(env, c, finalized, snaps, headerTip.value, ForkOf(env, c, CurrentTip(c.tip), headerTip.value).height)
    else []
  }

  // They hang on the fork point, which is the indexed block of its height, and not below the
  // finalised height; and the tip is the last of them.
  lemma WalkedHangsOn(env: Env, c: Chain, finalized: Option<nat>, snaps: seq<Snapshot>, head: Tip)
    requires Linked(c.headers) && Linked(HeadersOf(c.blocks)) && Keyed(env, c.blocks)
    requires Walked(env, c, finalized, snaps, Some(head)) != []
    ensures var fork, part := ForkOf(env, c, CurrentTip(c.tip), head), Walked(env, c, finalized, snaps, Some(head));
            var last := part[|part| - 1];
            && HangsOn(c.blocks, c.hashAt, fork, part)
            && (fork.height > 0 ==> fork.height in c.hashAt && c.hashAt[fork.height] == fork.hash && fork.hash in c.blocks)
            && (finalized.Some? ==> finalized.value <= fork.height)
            && Reorged(env, c, finalized, snaps, Some(head)).tip == Some(Tip(fork.height + |part|, last))
  {
    var fork := ForkOf(env, c, CurrentTip(c.tip), head);
    var base, path := Base(env, c, snaps, fork.height), PathAbove(c.headers, head, fork.height);
    AppliedMatch(env, c.headers, c.blocks, base.ledger, path.value);
    PartHangsOn(env, c, CurrentTip(c.tip), head, fork, path.value, Walked(env, c, finalized, snaps, Some(head)));
  }

  /** The finalised checkpoint and a reorganisation. Only the finalised height is looked at, never
      the hash: an attempt that applies anything leaves the tip on the finalised block exactly when
      the fork point descends from it; with a linked index, exactly when the index holds it. */
  lemma ReorgKeepsFinalisedIff(
    env: Env, genesis: Hash, c: Chain, snaps: seq<Snapshot>, head: Tip, f: nat, hash: Hash)
    requires Tree(env, genesis, c) && Linked(c.headers) && f > 0
    requires Walked(env, c, Some(f), snaps, Some(head)) != []
    ensures var c', fork, t := Reorged(env, c, Some(f), snaps, Some(head)), ForkOf(env, c, CurrentTip(c.tip), head), Tip(f, hash);
            && f <= fork.height && c'.tip.Some?
            && (Descends(HeadersOf(c'.blocks), c'.tip.value.hash, t) <==> Descends(HeadersOf(c.blocks), fork.hash, t))
            && (IndexLinked(c.blocks, c.hashAt, fork.height) ==>
                  (Descends(HeadersOf(c'.blocks), c'.tip.value.hash, t) <==> c.hashAt[f] == hash))
  {
    var fork, part, t := ForkOf(env, c, CurrentTip(c.tip), head), Walked(env, c, Some(f), snaps, Some(head)), Tip(f, hash);
    WalkedHangsOn(env, c, Some(f), snaps, head);
    WayDescends(c, fork, part, t);
    if IndexLinked(c.blocks, c.hashAt, fork.height) { IndexedAncestor(c, fork, f); }
  }

  // In a linked index the ancestors of the block at its end are the indexed ones.
  lemma IndexedAncestor(c: Chain, fork: Tip, k: nat)
    requires Linked(HeadersOf(c.blocks)) && IndexLinked(c.blocks, c.hashAt, fork.height) && 1 <= k <= fork.height
    requires c.hashAt[fork.height] == fork.hash
    ensures AncestorAt(HeadersOf(c.blocks), fork.hash, k) == Some(c.hashAt[k])
  {
    var p := Indexed(c.hashAt, fork.height);
    assert p + [] == p;
    LinkedIsPath(c.blocks, c.hashAt, fork, [], p);
    PathAncestor(HeadersOf(c.blocks), fork, p, k);
  }

  // The reorganisation takes the tip to where the way does not lead over `t`.
  ghost predicate Strands(env: Env, c: Chain, finalized: Option<nat>, snaps: seq<Snapshot>, headerTip: Option<Tip>, t: Tip)
    requires Linked(c.headers) && Linked(HeadersOf(c.blocks))
  {
    && headerTip.Some? && t.height > 0
    && var part := Walked(env, c, finalized, snaps, headerTip);
       part != [] && !OnWay(c, ForkOf(env, c, CurrentTip(c.tip), headerTip.value), part, t)
  }

  /** Over any attempt, successful or not, the tip stays on a block of its chain exactly when
      nothing is applied or the way leads over that block. */
  lemma ReorgLeavesIff(env: Env, genesis: Hash, c: Chain, finalized: Option<nat>, snaps: seq<Snapshot>, headerTip: Option<Tip>, t: Tip)
    requires Rooted(env, genesis, c) && Linked(c.headers) && Descends(HeadersOf(c.blocks), c.tip.value.hash, t)
    ensures var c' := Reorged(env, c, finalized, snaps, headerTip);
            && Rooted(env, genesis, c')
            && (Descends(HeadersOf(c'.blocks), c'.tip.value.hash, t) <==> !Strands(env, c, finalized, snaps, headerTip, t))
  {
    var part := Walked(env, c, finalized, snaps, headerTip);
    if part != [] {
      var fork, last := ForkOf(env, c, CurrentTip(c.tip), headerTip.value), part[|part| - 1];
      WalkedHangsOn(env, c, finalized, snaps, headerTip.value);
      if t.height > 0 { WayDescends(c, fork, part, t); } else { GenesisShared(env, genesis, c, last, t); }
    }
  }

  lemma GenesisShared(env: Env, genesis: Hash, c: Chain, h: Hash, t: Tip)
    requires Rooted(env, genesis, c) && Descends(HeadersOf(c.blocks), c.tip.value.hash, t) && t.height == 0 && h in c.blocks
    ensures Descends(HeadersOf(c.blocks), h, t)
  {
    assert h in HeadersOf(c.blocks);
    AncestorExists(HeadersOf(c.blocks), h, 0);
  }

  // A successful step is the whole attempt.
  lemma ReorgStepIs(env: Env, c: Chain, c': Chain, finalized: Option<nat>, snaps: seq<Snapshot>, head: Tip, fork: Tip, path: seq<Hash>)
    requires ReorgStep(env, c, c', finalized, snaps, head, fork, path) && Linked(HeadersOf(c.blocks)) && fork.height > 0
    requires Permitted(env, c.blocks, c.hashAt, finalized, head.hash) && Elsewhere(c.tip, Some(head))
    ensures Reorged(env, c, finalized, snaps, Some(head)) == c'
  {
    var cur := CurrentTip(c.tip);
    ReorgStepCan(env, c, c', finalized, snaps, head, fork, path);
    ForkUnique(env, c, cur, head, ForkOf(env, c, cur, head), fork);
    AppliedMatch(env, c.headers, c.blocks, Base(env, c, snaps, fork.height).ledger, path);
    assert path[..|path|] == path;
  }
}

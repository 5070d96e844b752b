/** Runs in which the code falls short. Each is played for every cast of blocks that fit the
    part; the witness environment has such casts, so the runs do occur. */
module Scenarios {
  import opened Wrappers
  import opened ChainTypes
  import opened LedgerSpec
  import opened Storage
  import opened Pow
  import opened NonceOrder
  import opened StateReplay
  import opened Ancestry
  import opened WeightedSets
  import opened NodeTypes
  import opened BlockSubmission
  import opened RegistryFinality
  import opened Reorg
  import opened MainChain
  import opened FastPath
  import opened Witness
  import F = Finality
  import J = JointFinality

  // ----- the cast -----

  // A genesis block, a child of it, a grandchild, and a rival child of the genesis block.
  datatype Cast = Cast(env: Env, root: Block, first: Block, second: Block, rival: Block)

  ghost predicate Child(env: Env, p: Block, b: Block) {
    b.header.prev == env.hashOf(p.header) && b.header.height == p.header.height + 1
  }

  // Admissible in any state of the node.
  ghost predicate Fit(env: Env, b: Block) {
    forall c: Chain :: Admissible(env, c, [], b)
  }

  ghost predicate Playable(k: Cast) {
    && CollisionFree(k.env) && (forall index, blocks, h :: k.env.nextBits(index, blocks, h) == None)
    && k.root.header.height == 0
    && Child(k.env, k.root, k.first) && Child(k.env, k.first, k.second) && Child(k.env, k.root, k.rival)
    && k.rival.header != k.first.header
    && Fit(k.env, k.first) && Fit(k.env, k.second) && Fit(k.env, k.rival)
  }

  function Money(k: Cast): Ledger { Genesis(k.env.allocs) }

  function Weight(b: Block): nat { Work64(b.header.bits) }

  function Id(k: Cast, b: Block): Hash { k.env.hashOf(b.header) }

  lemma Distinct(k: Cast)
    requires Playable(k)
    ensures Id(k, k.root) != Id(k, k.first) && Id(k, k.root) != Id(k, k.second) && Id(k, k.root) != Id(k, k.rival)
    ensures Id(k, k.first) != Id(k, k.second) && Id(k, k.first) != Id(k, k.rival) && Id(k, k.second) != Id(k, k.rival)
  {
  }

  // ----- the main chain of one and of two blocks -----

  function Opening(k: Cast): Chain { GenesisChain(k.env, k.root, Money(k)) }

  function One(k: Cast): Chain { Advanced(k.env, Opening(k), k.first) }

  function Two(k: Cast): Chain { Advanced(k.env, One(k), k.second) }

  lemma SmallSum(a: nat, b: nat)
    requires a <= 1000 && b <= 255
    ensures Cumulative(a, b) == a + b
  {
    CumulativeSaturates(a, b);
  }

  lemma OneFacts(k: Cast)
    requires Playable(k)
    ensures NewWork(Opening(k), k.first) == Weight(k.root) + Weight(k.first) == One(k).tipWork
    ensures One(k).work[Id(k, k.root)] == Weight(k.root)
  {
    Distinct(k);
    WorkBounds(k.root.header.bits);
    WorkBounds(k.first.header.bits);
    SmallSum(Weight(k.root), Weight(k.first));
  }

  lemma OneAccepted(k: Cast)
    requires Playable(k) && RunTxs(Money(k), k.first.txs).Ok?
    ensures Submit(k.env, Opening(k), [], k.first) == (One(k), true)
    ensures Inv(k.env, Id(k, k.root), One(k), {Id(k, k.first)})
    ensures Follows(One(k), Tip(1, Id(k, k.first)), 1)
  {
    var env, c := k.env, Opening(k);
    GenesisInv(env, k.root, Money(k));
    assert Connects(env, c, k.first) && ExtendsTip(c, k.first);
    assert Submit(env, c, [], k.first) == (One(k), true);
    SubmitKeepsInv(env, Id(k, k.root), c, {}, [], k.first);
    assert {} + {Id(k, k.first)} == {Id(k, k.first)};
    SubmitFollowsIff(env, Id(k, k.root), c, {}, [], k.first);
  }

  lemma TwoFacts(k: Cast)
    requires Playable(k)
    ensures Two(k).tipWork == Weight(k.root) + Weight(k.first) + Weight(k.second)
    ensures Two(k).work[Id(k, k.root)] == Weight(k.root)
  {
    Distinct(k);
    OneFacts(k);
    WorkBounds(k.root.header.bits);
    WorkBounds(k.first.header.bits);
    WorkBounds(k.second.header.bits);
    SmallSum(Weight(k.root) + Weight(k.first), Weight(k.second));
  }

  lemma TwoAccepted(k: Cast)
    requires Playable(k) && RunTxs(Money(k), k.first.txs).Ok? && RunTxs(Money(k), k.second.txs).Ok?
    ensures Submit(k.env, One(k), [], k.second) == (Two(k), true)
    ensures Inv(k.env, Id(k, k.root), Two(k), {Id(k, k.first), Id(k, k.second)})
    ensures Follows(Two(k), Tip(2, Id(k, k.second)), 1)
  {
    var env, c := k.env, One(k);
    OneAccepted(k);
    assert Connects(env, c, k.second) && ExtendsTip(c, k.second);
    assert Submit(env, c, [], k.second) == (Two(k), true);
    SubmitKeepsInv(env, Id(k, k.root), c, {Id(k, k.first)}, [], k.second);
    assert {Id(k, k.first)} + {Id(k, k.second)} == {Id(k, k.first), Id(k, k.second)};
    SubmitFollowsIff(env, Id(k, k.root), c, {Id(k, k.first)}, [], k.second);
  }

  lemma OneRun(k: Cast, rest: seq<Event>)
    requires Playable(k) && RunTxs(Money(k), k.first.txs).Ok?
    ensures Run(k.env, Opening(k), {}, [Submitted(k.first, [])] + rest) == Run(k.env, One(k), {Id(k, k.first)}, rest)
  {
    OneAccepted(k);
    RunCons(k.env, Opening(k), {}, Submitted(k.first, []), rest, One(k), {Id(k, k.first)});
  }

  lemma TwoRun(k: Cast)
    requires Playable(k) && RunTxs(Money(k), k.first.txs).Ok? && RunTxs(Money(k), k.second.txs).Ok?
    ensures Run(k.env, Opening(k), {}, [Submitted(k.first, []), Submitted(k.second, [])])
            == (Two(k), {Id(k, k.first), Id(k, k.second)})
  {
    var e1, e2, two := Submitted(k.first, []), Submitted(k.second, []), {Id(k, k.first), Id(k, k.second)};
    OneRun(k, [e2]);
    TwoAccepted(k);
    RunStep(k.env, Two(k), two, []);
    RunCons(k.env, One(k), {Id(k, k.first)}, e2, [], Two(k), two);
    assert [e1] + [e2] == [e1, e2] && [e2] + [] == [e2];
  }

  lemma RunStep(env: Env, c: Chain, accepted: set<Hash>, none: seq<Event>)
    requires none == []
    ensures Run(env, c, accepted, none) == (c, accepted)
  {
  }

  lemma RunCons(env: Env, c: Chain, accepted: set<Hash>, e: Event, rest: seq<Event>, c': Chain, accepted': set<Hash>)
    requires After(env, c, e) == c' && accepted + Taken(env, c, e) == accepted'
    ensures Run(env, c, accepted, [e] + rest) == Run(env, c', accepted', rest)
  {
    assert ([e] + rest)[1..] == rest;
  }

  lemma TwoAncestry(k: Cast)
    requires Playable(k) && RunTxs(Money(k), k.first.txs).Ok? && RunTxs(Money(k), k.second.txs).Ok?
    ensures var c := Two(k);
            && Closed(HeadersOf(c.blocks)) && c.tip == Some(Tip(2, Id(k, k.second))) && Id(k, k.second) in c.blocks
            && IndexLinked(c.blocks, c.hashAt, 2) && AllStored(c.blocks, Indexed(c.hashAt, 2))
            && BlocksAlong(c.blocks, Indexed(c.hashAt, 2)) == AncestryOf(c.blocks, Id(k, k.second)) == [k.first, k.second]
  {
    var c := Two(k);
    TwoAccepted(k);
    Distinct(k);
    FollowingIsAncestry(c, Tip(2, Id(k, k.second)));
    assert Indexed(c.hashAt, 2) == [Id(k, k.first), Id(k, k.second)];
  }

  // ----- the same transactions twice -----

  /** Two successive blocks with the same spends, both accepted: the tip's chain holds the same
      sender and nonce twice. */
  lemma SpendTwice(k: Cast)
    requires Playable(k) && RunTxs(Money(k), k.first.txs).Ok? && k.second.txs == k.first.txs
    requires |k.first.txs| == 1 && k.first.txs[0].txType != Coinbase
    ensures var (c, accepted) := Run(k.env, Opening(k), {}, [Submitted(k.first, []), Submitted(k.second, [])]);
            && accepted == {Id(k, k.first), Id(k, k.second)} && c.ledger == Money(k)
            && c.tip == Some(Tip(2, Id(k, k.second))) && Closed(HeadersOf(c.blocks)) && Id(k, k.second) in c.blocks
            && !ReplayFree(Flatten(AncestryOf(c.blocks, Id(k, k.second))))
  {
    TwoRun(k);
    TwoAncestry(k);
    var a, b := k.first, k.second;
    assert [a, b][1..] == [b] && [b][1..] == [];
    assert Flatten([a, b]) == a.txs + Flatten([b]) && Flatten([b]) == b.txs + Flatten([b][1..]);
    var txs := Flatten([a, b]);
    assert txs == [a.txs[0], a.txs[0]];
    assert SpentBy(txs[1], txs[0].from) && txs[0].nonce == txs[1].nonce;
  }

  // ----- a losing block displaces another in the index -----

  /** A light rival of the first of two blocks is accepted, loses, and takes over its height: the
      index followed the tip before and no longer does. */
  lemma RivalDisplaces(k: Cast)
    requires Playable(k) && RunTxs(Money(k), k.first.txs).Ok? && RunTxs(Money(k), k.second.txs).Ok?
    requires Weight(k.rival) <= Weight(k.first)
    ensures Submit(k.env, Two(k), [], k.rival) == (Stored(k.env, Two(k), k.rival), true)
    ensures Closed(HeadersOf(Two(k).blocks)) && Closed(HeadersOf(Stored(k.env, Two(k), k.rival).blocks))
    ensures Follows(Two(k), Tip(2, Id(k, k.second)), 1) && !Follows(Stored(k.env, Two(k), k.rival), Tip(2, Id(k, k.second)), 1)
  {
    TwoAccepted(k);
    RivalLoses(k);
    SubmitFollowsIff(k.env, Id(k, k.root), Two(k), {Id(k, k.first), Id(k, k.second)}, [], k.rival);
  }

  /** A rebuild to the tip's height then runs the rival in place of the first block; where the
      two move different accounts' nonces, it ends in the wrong ledger. */
  lemma RivalIsReplayed(k: Cast)
    requires Playable(k) && RunTxs(Money(k), k.first.txs).Ok? && RunTxs(Money(k), k.second.txs).Ok?
    ensures var c, c' := Two(k), Stored(k.env, Two(k), k.rival);
            && ReplayMain(c.blocks, c.hashAt, Money(k), 1, 2) == Replay(Money(k), [k.first, k.second])
            && ReplayMain(c'.blocks, c'.hashAt, Money(k), 1, 2) == Replay(Money(k), [k.rival, k.second])
  {
    TwoAccepted(k);
    TwoAncestry(k);
    FollowingReplays(Two(k), Tip(2, Id(k, k.second)), Money(k));
    DisplacedReplay(k.env, Id(k, k.root), Two(k), {Id(k, k.first), Id(k, k.second)}, k.rival, Money(k));
    assert [k.first, k.second][0 := k.rival] == [k.rival, k.second];
  }

  lemma RivalLoses(k: Cast)
    requires Playable(k) && RunTxs(Money(k), k.first.txs).Ok? && RunTxs(Money(k), k.second.txs).Ok?
    requires Weight(k.rival) <= Weight(k.first)
    ensures Submit(k.env, Two(k), [], k.rival) == (Stored(k.env, Two(k), k.rival), true)
    ensures Closed(HeadersOf(Two(k).blocks)) && Displaces(k.env, Two(k), [], k.rival)
  {
    var env, c := k.env, Two(k);
    TwoAccepted(k);
    TwoFacts(k);
    Distinct(k);
    assert Connects(env, c, k.rival) && !ExtendsTip(c, k.rival);
    WorkBounds(k.root.header.bits);
    WorkBounds(k.rival.header.bits);
    SmallSum(Weight(k.root), Weight(k.rival));
    StoredGrows(env, Id(k, k.root), c, k.rival);
    assert AncestorAt(HeadersOf(c.blocks), Id(k, k.second), 1) == Some(c.hashAt[1]);
  }

  // ----- a heavy rival takes over -----

  lemma RivalFacts(k: Cast, c: Chain)
    requires Playable(k) && RunTxs(Money(k), k.first.txs).Ok?
    requires c == One(k) || c == Raised(k)
    ensures Connects(k.env, c, k.rival) && !ExtendsTip(c, k.rival)
    ensures NewWork(c, k.rival) == Weight(k.root) + Weight(k.rival) && c.tipWork == Weight(k.root) + Weight(k.first)
    ensures var s := HeadersOf(Stored(k.env, c, k.rival).blocks);
            && Closed(s) && Descends(s, Id(k, k.rival), Tip(0, Id(k, k.root))) && !Descends(s, Id(k, k.rival), Tip(1, Id(k, k.first)))
  {
    Distinct(k);
    OneFacts(k);
    OneAccepted(k);
    WorkBounds(k.root.header.bits);
    WorkBounds(k.rival.header.bits);
    SmallSum(Weight(k.root), Weight(k.rival));
    assert Tree(k.env, Id(k, k.root), c);
    StoredGrows(k.env, Id(k, k.root), c, k.rival);
    var s := HeadersOf(Stored(k.env, c, k.rival).blocks);
    assert s[Id(k, k.rival)] == k.rival.header;
    assert AncestorAt(s, Id(k, k.rival), 0) == AncestorAt(s, Id(k, k.root), 0);
  }

  lemma RivalWins(k: Cast)
    requires Playable(k) && RunTxs(Money(k), k.first.txs).Ok? && Weight(k.rival) > Weight(k.first)
    ensures var (c, ok) := Submit(k.env, One(k), [], k.rival);
            && ok && c.tip == Some(Tip(1, Id(k, k.rival)))
            && Closed(HeadersOf(c.blocks)) && !Descends(HeadersOf(c.blocks), c.tip.value.hash, Tip(1, Id(k, k.first)))
  {
    RivalFacts(k, One(k));
    OneAccepted(k);
    assert Descends(HeadersOf(One(k).blocks), Id(k, k.first), Tip(1, Id(k, k.first)));
    J.SubmissionLeavesIff(k.env, Id(k, k.root), One(k), [], k.rival, Tip(1, Id(k, k.first)));
  }

  /** A switch to a heavy rival whose transactions do not apply goes through: tip and index move,
      and the ledger is what the failed rebuild left. */
  lemma SwitchWithoutLedger(k: Cast)
    requires Playable(k) && RunTxs(Money(k), k.first.txs).Ok? && Weight(k.rival) > Weight(k.first)
    requires DistinctAddresses(k.env.allocs) && !DbTxs(Money(k), k.rival.txs).ok
    ensures var (c, ok) := Submit(k.env, One(k), [], k.rival);
            && ok && c.tip == Some(Tip(1, Id(k, k.rival)))
            && !Rebuilt(c.blocks, c.hashAt, [], k.env.allocs, 1).ok && c.ledger == DbTxs(Money(k), k.rival.txs).ledger
  {
    RivalFacts(k, One(k));
    var s, t := Stored(k.env, One(k), k.rival), Tip(1, Id(k, k.rival));
    SwitchIff(k.env, s, [], t);
    SwitchRebuildsLedger(k.env, s, [], t);
    SwitchFrame(k.env, s, [], t);
    var h := Id(k, k.rival);
    assert PathUp(HeadersOf(s.blocks), h, 1) == Some([h]);
    var bs := BlocksAlong(s.blocks, [h]);
    assert bs == [k.rival];
    assert Replay(Money(k), bs) == DbTxs(Money(k), k.rival.txs);
  }

  // ----- a stored block loses its transactions -----

  lemma OneAncestry(k: Cast)
    requires Playable(k) && RunTxs(Money(k), k.first.txs).Ok?
    ensures var c := One(k);
            && Closed(HeadersOf(c.blocks)) && Id(k, k.first) in c.blocks
            && AncestorAt(HeadersOf(c.blocks), Id(k, k.first), 1) == Some(Id(k, k.first))
            && AncestryOf(c.blocks, Id(k, k.first)) == [k.first]
  {
    var c, h := One(k), Id(k, k.first);
    OneAccepted(k);
    assert h in HeadersOf(c.blocks);
    assert PathUp(HeadersOf(c.blocks), h, 1) == Some([h]);
  }

  lemma ReplayOne(l: Ledger, b: Block)
    ensures Replay(l, [b]) == DbTxs(l, b.txs)
  {
    assert [b][1..] == [];
  }

  lemma RebuiltToFirst(k: Cast)
    requires Playable(k)
    ensures ReplayMain(One(k).blocks, One(k).hashAt, Money(k), 1, 1) == DbTxs(Money(k), k.first.txs)
  {
    BaseOfOne(k.env, One(k), k.first);
  }

  /** The first block is submitted again with other transactions under the same header, for instance
      none: it is accepted, the tip stays, and a rebuild runs the new transactions. */
  lemma BlockRewritten(k: Cast, txs: seq<Tx>)
    requires Playable(k) && RunTxs(Money(k), k.first.txs).Ok?
    requires Fit(k.env, Block(k.first.header, txs)) && txs != k.first.txs
    ensures var c, b := One(k), Block(k.first.header, txs);
            var (c', ok) := Submit(k.env, c, [], b);
            && ok && c'.tip == c.tip && Id(k, k.first) in c'.blocks && c'.blocks[Id(k, k.first)] == b
            && ReplayMain(c.blocks, c.hashAt, Money(k), 1, 1) == DbTxs(Money(k), k.first.txs)
            && ReplayMain(c'.blocks, c'.hashAt, Money(k), 1, 1) == DbTxs(Money(k), txs)
  {
    var c, b, g := One(k), Block(k.first.header, txs), Id(k, k.root);
    OneAccepted(k);
    OneAncestry(k);
    assert Lands(k.env, c, [], b) && Rewrites(k.env, c, b);
    RewrittenReplay(k.env, g, c, {Id(k, k.first)}, [], b, Money(k));
    SubmitTip(k.env, g, c, [], b);
    assert [k.first][0 := b] == [b];
    ReplayOne(Money(k), b);
    RebuiltToFirst(k);
  }

  // ----- a refused block becomes part of the main chain -----

  /** The first block is refused, and stored; its child is accepted, and brings it in. */
  lemma RefusedThenAdopted(k: Cast)
    requires Playable(k) && RunTxs(Money(k), k.first.txs).Err? && Weight(k.second) > 0
    ensures var c1 := Stored(k.env, Opening(k), k.first);
            var (c2, ok) := Submit(k.env, c1, [], k.second);
            && Submit(k.env, Opening(k), [], k.first) == (c1, false)
            && ok && c2.tip == Some(Tip(2, Id(k, k.second)))
            && Closed(HeadersOf(c2.blocks)) && Id(k, k.second) in c2.blocks
            && Descends(HeadersOf(c2.blocks), Id(k, k.second), Tip(1, Id(k, k.first)))
            && !AllAccepted(HeadersOf(c2.blocks), Id(k, k.second), {Id(k, k.second)})
  {
    var env, c := k.env, Opening(k);
    GenesisInv(env, k.root, Money(k));
    Distinct(k);
    assert Connects(env, c, k.first) && ExtendsTip(c, k.first);
    assert Connects(env, Stored(env, c, k.first), k.second);
    RefusedWork(k);
    RefusedIsAdopted(env, Id(k, k.root), c, {}, [], k.first, k.second);
    assert {} + {Id(k, k.second)} == {Id(k, k.second)};
  }

  lemma RefusedWork(k: Cast)
    requires Playable(k) && Weight(k.second) > 0
    ensures NewWork(Stored(k.env, Opening(k), k.first), k.second) > Opening(k).tipWork
  {
    OneFacts(k);
    WorkBounds(k.root.header.bits);
    WorkBounds(k.first.header.bits);
    WorkBounds(k.second.header.bits);
    SmallSum(Weight(k.root) + Weight(k.first), Weight(k.second));
  }

  // ----- a reorganisation leaves the tip work behind -----

  // The second block was refused on the stale ledger, and stored.
  function Waiting(k: Cast): Chain { Stored(k.env, One(k), k.second) }

  // The chain with both blocks applies in full.
  ghost predicate Refusable(k: Cast) {
    && Playable(k) && RunTxs(Money(k), k.first.txs).Ok? && RunTxs(Money(k), k.second.txs).Err?
    && Replay(Money(k), [k.first, k.second]).ok && Id(k, k.first) != ""
  }

  // What a reorganisation towards the second block leaves.
  ghost function Moved(k: Cast): Chain { MovedTo(k.env, Waiting(k), k.first, k.second) }

  // The stored headers are those of stored blocks.
  ghost predicate HeadersAgree(c: Chain) { forall h :: h in c.headers ==> h in c.blocks && c.headers[h] == c.blocks[h].header }

  lemma StoredAgrees(env: Env, c: Chain, b: Block)
    requires HeadersAgree(c)
    ensures HeadersAgree(Stored(env, c, b))
  {
  }

  lemma AgreeIsLinked(c: Chain)
    requires HeadersAgree(c) && Closed(HeadersOf(c.blocks))
    ensures Linked(c.headers)
  {
    forall h | h in c.headers && c.headers[h].height > 0 && c.headers[h].prev in c.headers
      ensures c.headers[c.headers[h].prev].height == c.headers[h].height - 1
    {
      assert h in HeadersOf(c.blocks);
    }
  }

  lemma OneAgrees(k: Cast)
    ensures HeadersAgree(One(k))
  {
    StoredAgrees(k.env, Opening(k), k.first);
  }

  // Rebuilding to height one runs the block indexed there.
  lemma BaseOfOne(env: Env, c: Chain, b: Block)
    requires BlockAt(c.blocks, c.hashAt, 1) == Some(b)
    ensures Base(env, c, [], 1) == DbTxs(Genesis(env.allocs), b.txs)
  {
    var o := DbTxs(Genesis(env.allocs), b.txs);
    if o.ok { assert ReplayMain(c.blocks, c.hashAt, o.ledger, 2, 1) == o; }
    assert ReplayMain(c.blocks, c.hashAt, Genesis(env.allocs), 1, 1) == o;
  }

  lemma WaitingInv(k: Cast)
    requires Refusable(k)
    ensures Submit(k.env, One(k), [], k.second) == (Waiting(k), false)
    ensures Inv(k.env, Id(k, k.root), Waiting(k), {Id(k, k.first)}) && Linked(Waiting(k).headers)
  {
    OneAccepted(k);
    assert Connects(k.env, One(k), k.second) && ExtendsTip(One(k), k.second);
    StoredInv(k.env, Id(k, k.root), One(k), {Id(k, k.first)}, k.second);
    OneAgrees(k);
    StoredAgrees(k.env, One(k), k.second);
    AgreeIsLinked(Waiting(k));
  }

  lemma WaitingBlocks(k: Cast)
    requires Refusable(k)
    ensures var c := Waiting(k);
            && Id(k, k.first) in c.headers && c.headers[Id(k, k.first)] == k.first.header
            && Id(k, k.second) in c.headers && c.headers[Id(k, k.second)] == k.second.header
            && BlockAt(c.blocks, c.hashAt, 1) == Some(k.first) && BlockAt(c.blocks, c.hashAt, 2) == Some(k.second)
  {
    Distinct(k);
  }

  lemma ForkAtFirst(k: Cast)
    requires Refusable(k) && Linked(Waiting(k).headers)
    ensures var c, head := Waiting(k), Tip(2, Id(k, k.second));
            && IsFork(k.env, c, Tip(1, Id(k, k.first)), head, Tip(1, Id(k, k.first)))
            && PathAbove(c.headers, head, 1) == Some([Id(k, k.second)])
  {
    WaitingBlocks(k);
    ForkAtParent(k.env, Waiting(k), Tip(1, Id(k, k.first)), k.first, k.second);
  }

  // A header whose parent is the indexed block at height one, which is the tip's height.
  lemma ForkAtParent(env: Env, c: Chain, cur: Tip, a: Block, b: Block)
    requires Linked(c.headers) && Child(env, a, b) && a.header.height == 1 && cur.height == 1 && cur.hash != ""
    requires env.hashOf(a.header) in c.headers && c.headers[env.hashOf(a.header)] == a.header
    requires env.hashOf(b.header) in c.headers && c.headers[env.hashOf(b.header)] == b.header
    requires BlockAt(c.blocks, c.hashAt, 1) == Some(a)
    ensures var fork, head := Tip(1, env.hashOf(a.header)), Tip(2, env.hashOf(b.header));
            IsFork(env, c, cur, head, fork) && PathAbove(c.headers, head, 1) == Some([head.hash])
  {
    var ha, hb := env.hashOf(a.header), env.hashOf(b.header);
    assert AncestorAt(c.headers, hb, 1) == AncestorAt(c.headers, ha, 1);
    assert SharedAt(env, c.headers, c.blocks, c.hashAt, hb, 1);
  }

  // What a reorganisation from the first block to the second leaves.
  ghost function MovedTo(env: Env, c: Chain, a: Block, b: Block): Chain {
    c.(tip := Some(Tip(b.header.height, env.hashOf(b.header))), ledger := Replay(Genesis(env.allocs), [a, b]).ledger)
  }

  lemma CarriedToChild(env: Env, c: Chain, a: Block, b: Block)
    requires Linked(c.headers) && b.header.height == 2 && Replay(Genesis(env.allocs), [a, b]).ok
    requires var h := env.hashOf(b.header);
             && h in c.headers && c.headers[h] == b.header && h in c.blocks && c.blocks[h] == b
             && PathAbove(c.headers, Tip(2, h), 1) == Some([h])
    requires BlockAt(c.blocks, c.hashAt, 1) == Some(a)
    ensures CarriedOn(env, MovedTo(env, c, a, b), [], Tip(2, env.hashOf(b.header)), 1, [env.hashOf(b.header)], c.tip)
  {
    var o, h := DbTxs(Genesis(env.allocs), a.txs), env.hashOf(b.header);
    BaseOfOne(env, MovedTo(env, c, a, b), a);
    assert [a, b][1..] == [b];
    ReplayOne(o.ledger, b);
    assert Replay(Genesis(env.allocs), [a, b]) == DbTxs(o.ledger, b.txs);
    assert [h][1..] == [];
    assert Matches(env, c.headers, b);
    assert ReplayPath(env, c.headers, c.blocks, o.ledger, [h]) == DbTxs(o.ledger, b.txs);
  }

  lemma CarriedToSecond(k: Cast)
    requires Refusable(k) && Linked(Waiting(k).headers)
    ensures CarriedOn(k.env, Moved(k), [], Tip(2, Id(k, k.second)), 1, [Id(k, k.second)], Waiting(k).tip)
  {
    WaitingBlocks(k);
    ForkAtFirst(k);
    CarriedToChild(k.env, Waiting(k), k.first, k.second);
  }

  /** The second block, refused on the stale ledger though its chain applies, is the header tip: the
      reorganisation goes through, and leaves the first block's work recorded for the new tip. */
  lemma ReorgLeavesWork(k: Cast)
    requires Refusable(k) && Weight(k.second) > 0
    ensures ReorgStep(k.env, Waiting(k), Moved(k), None, [], Tip(2, Id(k, k.second)), Tip(1, Id(k, k.first)), [Id(k, k.second)])
    ensures Linked(HeadersOf(Waiting(k).blocks)) && CanReorg(k.env, Waiting(k), None, [], Tip(1, Id(k, k.first)), Tip(2, Id(k, k.second)))
    ensures Rooted(k.env, Id(k, k.root), Moved(k)) && !Inv(k.env, Id(k, k.root), Moved(k), {Id(k, k.first)})
    ensures Moved(k).tipWork == Weight(k.root) + Weight(k.first)
    ensures Moved(k).work[Id(k, k.second)] == Weight(k.root) + Weight(k.first) + Weight(k.second)
  {
    var c, c', head, fork, path := Waiting(k), Moved(k), Tip(2, Id(k, k.second)), Tip(1, Id(k, k.first)), [Id(k, k.second)];
    WaitingInv(k);
    WaitingBlocks(k);
    ForkAtFirst(k);
    CarriedToSecond(k);
    OneFacts(k);
    TwoFacts(k);
    assert ReorgStep(k.env, c, c', None, [], head, fork, path);
    ReorgStepCan(k.env, c, c', None, [], head, fork, path);
    ReorgKeepsInvIff(k.env, Id(k, k.root), c, {Id(k, k.first)}, c', None, [], head, fork, path);
  }

  /** A rival of the first block with more work than that, but not more than the two blocks together,
      then takes the tip: a lighter chain replaces a heavier one. */
  lemma LighterTakesTip(k: Cast)
    requires Refusable(k) && Weight(k.first) < Weight(k.rival) <= Weight(k.first) + Weight(k.second)
    ensures var (c, ok) := Submit(k.env, Moved(k), [], k.rival);
            && ok && c.tip == Some(Tip(1, Id(k, k.rival)))
            && Id(k, k.rival) in c.work && Id(k, k.second) in c.work && c.work[Id(k, k.rival)] <= c.work[Id(k, k.second)]
  {
    var env, c, g := k.env, Moved(k), Id(k, k.root);
    ReorgLeavesWork(k);
    Distinct(k);
    RivalOfMoved(k);
    assert Overtakes(env, c, [], k.rival);
    OvertakenIs(env, c, [], k.rival);
    SubmitTip(env, g, c, [], k.rival);
  }

  lemma RivalOfMoved(k: Cast)
    requires Refusable(k) && Weight(k.second) > 0
    ensures Connects(k.env, Moved(k), k.rival) && !ExtendsTip(Moved(k), k.rival)
    ensures NewWork(Moved(k), k.rival) == Weight(k.root) + Weight(k.rival)
    ensures var s := HeadersOf(Stored(k.env, Moved(k), k.rival).blocks);
            Closed(s) && Descends(s, Id(k, k.rival), Moved(k).anchor.value)
  {
    Distinct(k);
    OneFacts(k);
    ReorgLeavesWork(k);
    WorkBounds(k.root.header.bits);
    WorkBounds(k.rival.header.bits);
    SmallSum(Weight(k.root), Weight(k.rival));
    StoredGrows(k.env, Id(k, k.root), Moved(k), k.rival);
    var s := HeadersOf(Stored(k.env, Moved(k), k.rival).blocks);
    assert s[Id(k, k.rival)] == k.rival.header && Id(k, k.root) in s && s[Id(k, k.root)] == k.root.header;
    assert AncestorAt(s, Id(k, k.rival), 0) == AncestorAt(s, Id(k, k.root), 0);
  }

  /** With the displaced index of RivalDisplaces and the light rival as header tip, a reorganisation
      goes through without moving the tip: it takes the rival for the fork point, and leaves the
      rival's ledger under a tip that does not descend from it. */
  lemma ReorgRewinds(k: Cast)
    requires Playable(k) && RunTxs(Money(k), k.first.txs).Ok? && RunTxs(Money(k), k.second.txs).Ok?
    requires DbTxs(Money(k), k.rival.txs).ok && Id(k, k.second) != ""
    ensures var c, t := Stored(k.env, Two(k), k.rival), Tip(1, Id(k, k.rival));
            var c' := c.(ledger := DbTxs(Money(k), k.rival.txs).ledger);
            && ReorgStep(k.env, c, c', None, [], t, t, [])
            && Linked(HeadersOf(c.blocks)) && CanReorg(k.env, c, None, [], Tip(2, Id(k, k.second)), t)
            && c'.tip == Some(Tip(2, Id(k, k.second))) && !Descends(HeadersOf(c'.blocks), Id(k, k.second), t)
  {
    var c, t := Stored(k.env, Two(k), k.rival), Tip(1, Id(k, k.rival));
    RivalStored(k);
    RivalOffTip(k);
    StaysPut(k.env, c, k.rival);
    ReorgStepCan(k.env, c, c.(ledger := DbTxs(Money(k), k.rival.txs).ledger), None, [], t, t, []);
  }

  lemma RivalStored(k: Cast)
    requires Playable(k) && RunTxs(Money(k), k.first.txs).Ok? && RunTxs(Money(k), k.second.txs).Ok?
    ensures var c := Stored(k.env, Two(k), k.rival);
            && Closed(HeadersOf(c.blocks)) && Linked(c.headers) && c.tip == Some(Tip(2, Id(k, k.second)))
            && Id(k, k.rival) in c.headers && c.headers[Id(k, k.rival)] == k.rival.header && BlockAt(c.blocks, c.hashAt, 1) == Some(k.rival)
  {
    RivalStoredTree(k);
    RivalStoredAgrees(k);
    AgreeIsLinked(Stored(k.env, Two(k), k.rival));
  }

  lemma RivalStoredTree(k: Cast)
    requires Playable(k) && RunTxs(Money(k), k.first.txs).Ok? && RunTxs(Money(k), k.second.txs).Ok?
    ensures Closed(HeadersOf(Stored(k.env, Two(k), k.rival).blocks))
  {
    TwoAccepted(k);
    assert Connects(k.env, Two(k), k.rival);
    StoredGrows(k.env, Id(k, k.root), Two(k), k.rival);
  }

  lemma RivalStoredAgrees(k: Cast)
    ensures HeadersAgree(Stored(k.env, Two(k), k.rival))
  {
    OneAgrees(k);
    StoredAgrees(k.env, One(k), k.second);
    StoredAgrees(k.env, Two(k), k.rival);
  }

  lemma RivalOffTip(k: Cast)
    requires Playable(k) && RunTxs(Money(k), k.first.txs).Ok? && RunTxs(Money(k), k.second.txs).Ok?
    ensures var c := Stored(k.env, Two(k), k.rival);
            Closed(HeadersOf(c.blocks)) && !Descends(HeadersOf(c.blocks), Id(k, k.second), Tip(1, Id(k, k.rival)))
  {
    TwoAccepted(k);
    Distinct(k);
    assert Connects(k.env, Two(k), k.rival);
    StoredDescends(k.env, Id(k, k.root), Two(k), k.rival, Id(k, k.second), Tip(1, Id(k, k.rival)));
    assert AncestorAt(HeadersOf(Two(k).blocks), Id(k, k.second), 1) == Some(Two(k).hashAt[1]);
  }

  // A header tip that is itself indexed at height one: only the ledger moves.
  lemma StaysPut(env: Env, c: Chain, b: Block)
    requires Linked(c.headers) && env.hashOf(b.header) in c.headers && c.headers[env.hashOf(b.header)] == b.header && b.header.height == 1
    requires c.tip.Some? && c.tip.value.height == 2 && c.tip.value.hash != "" && BlockAt(c.blocks, c.hashAt, 1) == Some(b)
    requires DbTxs(Genesis(env.allocs), b.txs).ok
    ensures var t := Tip(1, env.hashOf(b.header));
            ReorgStep(env, c, c.(ledger := DbTxs(Genesis(env.allocs), b.txs).ledger), None, [], t, t, [])
  {
    var h := env.hashOf(b.header);
    var c' := c.(ledger := DbTxs(Genesis(env.allocs), b.txs).ledger);
    assert AncestorAt(c.headers, h, 2) == None;
    assert SharedAt(env, c'.headers, c'.blocks, c'.hashAt, h, 1);
    BaseOfOne(env, c', b);
  }

  // ----- an anchor that is lowered -----

  function Raised(k: Cast): Chain { One(k).(anchor := Some(Tip(1, Id(k, k.first)))) }

  lemma RivalShutOut(k: Cast)
    requires Playable(k) && RunTxs(Money(k), k.first.txs).Ok? && Weight(k.rival) > Weight(k.first)
    ensures Submit(k.env, Raised(k), [], k.rival) == (Stored(k.env, Raised(k), k.rival), true)
    ensures Inv(k.env, Id(k, k.root), Stored(k.env, Raised(k), k.rival), {Id(k, k.first), Id(k, k.rival)})
  {
    var env, c := k.env, Raised(k);
    RaisedInv(k);
    RivalFacts(k, c);
    SwitchIff(env, Stored(env, c, k.rival), [], Tip(1, Id(k, k.rival)));
    assert Submit(env, c, [], k.rival) == (Stored(env, c, k.rival), true);
    SubmitKeepsInv(env, Id(k, k.root), c, {Id(k, k.first)}, [], k.rival);
    assert {Id(k, k.first)} + {Id(k, k.rival)} == {Id(k, k.first), Id(k, k.rival)};
  }

  lemma RivalOutweighs(k: Cast)
    requires Playable(k) && RunTxs(Money(k), k.first.txs).Ok? && Weight(k.rival) > Weight(k.first)
    ensures var c := Stored(k.env, Raised(k), k.rival);
            Closed(HeadersOf(c.blocks)) && Outweighed(c, {Id(k, k.first), Id(k, k.rival)}, Tip(0, Id(k, k.root)))
  {
    RivalFacts(k, Raised(k));
    var c := Stored(k.env, Raised(k), k.rival);
    assert c.work[Id(k, k.rival)] > c.tipWork;
  }

  lemma SoleVotePosted(law: J.Law, n: J.Node, height: nat, hash: Hash)
    requires law.rule == TwoThirds() && law.reg == Sole() && law.config == SoleConfig()
    requires (height, "v") !in n.final.votes && forall k :: k in n.final.votes ==> k.1 == "v"
    ensures var n' := J.After(law, n, J.Posted(SoleVote(height, hash)));
            && n'.chain == n.chain.(anchor := Some(Tip(height, hash)))
            && n'.final.votes == n.final.votes[(height, "v") := SoleVote(height, hash)]
  {
    AnyAnchorReached(n.final.votes, height, hash);
  }

  /** A registered and configured validator votes for the first block: the anchor goes up, and shuts
      out a heavy rival, which is accepted all the same. The validator votes for genesis: the anchor
      goes down again, and leaves the tip outweighed. */
  lemma LoweredAnchor(k: Cast, law: J.Law)
    requires Playable(k) && RunTxs(Money(k), k.first.txs).Ok? && Weight(k.rival) > Weight(k.first)
    requires law == J.Law(k.env, TwoThirds(), Sole(), SoleConfig())
    ensures var n1 := J.After(law, J.Node(One(k), F.Fresh()), J.Posted(SoleVote(1, Id(k, k.first))));
            var n2 := J.After(law, n1, J.Submitted(k.rival, []));
            var n3 := J.After(law, n2, J.Posted(SoleVote(0, Id(k, k.root))));
            Lowers(k, law, n1, n2, n3)
  {
    var n := J.Node(One(k), F.Fresh());
    SoleVotePosted(law, n, 1, Id(k, k.first));
    var n1 := J.After(law, n, J.Posted(SoleVote(1, Id(k, k.first))));
    var n2 := J.After(law, n1, J.Submitted(k.rival, []));
    LoweredFrom(k, law, n1, n2, J.After(law, n2, J.Posted(SoleVote(0, Id(k, k.root)))));
  }

  lemma LoweredFrom(k: Cast, law: J.Law, n1: J.Node, n2: J.Node, n3: J.Node)
    requires Playable(k) && RunTxs(Money(k), k.first.txs).Ok? && Weight(k.rival) > Weight(k.first)
    requires law == J.Law(k.env, TwoThirds(), Sole(), SoleConfig()) && n1.chain == Raised(k) && n1.final.votes.Keys == {(1, "v")}
    requires n2 == J.After(law, n1, J.Submitted(k.rival, [])) && n3 == J.After(law, n2, J.Posted(SoleVote(0, Id(k, k.root))))
    ensures Lowers(k, law, n1, n2, n3)
  {
    RaisedInv(k);
    RivalSubmitted(k, law, n1);
    RootVoted(k, law, n2);
  }

  // After the first vote, the rival and the second vote.
  ghost predicate Lowers(k: Cast, law: J.Law, n1: J.Node, n2: J.Node, n3: J.Node) {
    var both := {Id(k, k.first), Id(k, k.rival)};
    && J.Inv(law, Id(k, k.root), n1, {Id(k, k.first)}) && J.Taken(law, n1, J.Submitted(k.rival, [])) == {Id(k, k.rival)}
    && J.Inv(law, Id(k, k.root), n2, both) && n2.chain.tip == Some(Tip(1, Id(k, k.first)))
    && n3.chain == n2.chain.(anchor := Some(Tip(0, Id(k, k.root)))) && !J.Inv(law, Id(k, k.root), n3, both)
  }

  lemma RivalSubmitted(k: Cast, law: J.Law, n: J.Node)
    requires Playable(k) && RunTxs(Money(k), k.first.txs).Ok? && Weight(k.rival) > Weight(k.first)
    requires law.env == k.env && n.chain == Raised(k)
    ensures var n', e := n.(chain := Stored(k.env, Raised(k), k.rival)), J.Submitted(k.rival, []);
            && J.After(law, n, e) == n' && J.Taken(law, n, e) == {Id(k, k.rival)} && n'.chain.tip == Some(Tip(1, Id(k, k.first)))
            && J.Inv(law, Id(k, k.root), n', {Id(k, k.first), Id(k, k.rival)})
  {
    RivalShutOut(k);
  }

  lemma RootVoted(k: Cast, law: J.Law, n: J.Node)
    requires Playable(k) && RunTxs(Money(k), k.first.txs).Ok? && Weight(k.rival) > Weight(k.first)
    requires law == J.Law(k.env, TwoThirds(), Sole(), SoleConfig()) && n.chain == Stored(k.env, Raised(k), k.rival)
    requires n.final.votes.Keys == {(1, "v")}
    ensures var n' := J.After(law, n, J.Posted(SoleVote(0, Id(k, k.root))));
            && n'.chain == n.chain.(anchor := Some(Tip(0, Id(k, k.root))))
            && !J.Inv(law, Id(k, k.root), n', {Id(k, k.first), Id(k, k.rival)})
  {
    SoleVotePosted(law, n, 0, Id(k, k.root));
    RivalShutOut(k);
    RivalOutweighs(k);
    AnchorMovesIff(k.env, Id(k, k.root), n.chain, {Id(k, k.first), Id(k, k.rival)}, Tip(0, Id(k, k.root)));
  }

  lemma RaisedInv(k: Cast)
    requires Playable(k) && RunTxs(Money(k), k.first.txs).Ok?
    ensures Inv(k.env, Id(k, k.root), Raised(k), {Id(k, k.first)})
  {
    var c, t := One(k), Tip(1, Id(k, k.first));
    OneAccepted(k);
    assert Descends(HeadersOf(c.blocks), c.tip.value.hash, t);
    RaisedAnchor(c, {Id(k, k.first)}, t);
    AnchorMovesIff(k.env, Id(k, k.root), c, {Id(k, k.first)}, t);
  }

  // ----- a finalised block off the tip's chain -----

  function Pairs(): F.Registry { map["v" := Validator("v", 1, false), "w" := Validator("w", 1, false)] }

  function Equal(): Weights { map["v" := 1, "w" := 1] }

  function Ballot(p: Pub, h: Hash): VoteRecord { VoteRecord(1, h, "c", p, "") }

  lemma EqualSums()
    ensures F.Active(Pairs()) == Equal() && Standing(Pairs()) == Equal()
    ensures SumOver(Equal(), {}) == 0 && SumOver(Equal(), {"v"}) == 1 && SumOver(Equal(), {"v", "w"}) == 2
    ensures F.TotalWeight(Pairs()) == 2 && Sum(Equal()) == 2
  {
    SumRemove(Equal(), {"v"}, "v");
    assert {"v"} - {"v"} == {};
    SumRemove(Equal(), {"v", "w"}, "w");
    assert {"v", "w"} - {"w"} == {"v"};
    assert Equal().Keys == {"v", "w"};
  }

  function OneVote(h: Hash): F.Votes { map[(1, "v") := Ballot("v", h)] }

  function TwoVotes(h: Hash): F.Votes { map[(1, "v") := Ballot("v", h), (1, "w") := Ballot("w", h)] }

  lemma FirstVoteDecidesNothing(h: Hash)
    ensures forall x :: !F.Quorum(Pairs(), OneVote(h), 1, x)
    ensures !Reached(TwoThirds(), Pairs(), Equal(), OneVote(h), 1, h)
  {
    EqualSums();
    forall x ensures !F.Quorum(Pairs(), OneVote(h), 1, x) {
      assert F.Voters(OneVote(h), 1, x) == if x == h then {"v"} else {};
    }
    RegistryReachedIff(TwoThirds(), Pairs(), Equal(), OneVote(h), 1, h);
    assert forall p :: WeightOf(Equal(), p) <= 1;
  }

  lemma SecondVoteFinalises(h: Hash)
    ensures F.Quorum(Pairs(), TwoVotes(h), 1, h)
    ensures !Reached(TwoThirds(), Pairs(), Equal(), TwoVotes(h), 1, h)
  {
    EqualSums();
    assert (1, "v") in TwoVotes(h) && (1, "w") in TwoVotes(h);
    assert F.Voters(TwoVotes(h), 1, h) == {"v", "w"} by {
      assert (1, "v").1 == "v" && (1, "w").1 == "w";
    }
    RegistryReachedIff(TwoThirds(), Pairs(), Equal(), TwoVotes(h), 1, h);
    assert forall p :: WeightOf(Equal(), p) <= 1;
  }

  /** Two validators of equal weight vote for the first block. The weighted quorum finalises it, the
      anchor stays at genesis, and a heavy rival then takes the tip off the finalised block. */
  lemma FinalisedAndAbandoned(k: Cast)
    requires Playable(k) && RunTxs(Money(k), k.first.txs).Ok? && Weight(k.rival) > Weight(k.first)
    ensures var law, n, h := J.Law(k.env, TwoThirds(), Pairs(), Equal()), J.Node(One(k), F.Fresh()), Id(k, k.first);
            var n1 := J.After(law, n, J.Posted(Ballot("v", h)));
            var n2 := J.After(law, n1, J.Posted(Ballot("w", h)));
            var n3 := J.After(law, n2, J.Submitted(k.rival, []));
            && n2.final.height == Some(1) && n2.final.hash == h && n2.chain == One(k) && J.FinalOnTip(n2)
            && n3.final == n2.final && Closed(HeadersOf(n3.chain.blocks)) && n3.chain.tip.Some? && !J.FinalOnTip(n3)
  {
    var law, h := J.Law(k.env, TwoThirds(), Pairs(), Equal()), Id(k, k.first);
    FirstBallot(law, One(k), h);
    SecondBallot(law, One(k), h);
    OneAccepted(k);
    RivalWins(k);
    assert Descends(HeadersOf(One(k).blocks), h, Tip(1, h));
  }

  lemma FirstBallot(law: J.Law, c: Chain, h: Hash)
    requires law.rule == TwoThirds() && law.reg == Pairs() && law.config == Equal()
    ensures J.After(law, J.Node(c, F.Fresh()), J.Posted(Ballot("v", h))) == J.Node(c, F.Final(OneVote(h), None, ""))
  {
    FirstVoteDecidesNothing(h);
    assert F.Ingest(map[], Ballot("v", h)) == OneVote(h);
  }

  lemma SecondBallot(law: J.Law, c: Chain, h: Hash)
    requires law.rule == TwoThirds() && law.reg == Pairs() && law.config == Equal()
    ensures J.After(law, J.Node(c, F.Final(OneVote(h), None, "")), J.Posted(Ballot("w", h)))
            == J.Node(c, F.Final(TwoVotes(h), Some(1), h))
  {
    SecondVoteFinalises(h);
    assert F.Ingest(OneVote(h), Ballot("w", h)) == TwoVotes(h);
    forall x | F.Quorum(Pairs(), TwoVotes(h), 1, x) ensures x == h { F.QuorumUnique(Pairs(), TwoVotes(h), 1, x, h); }
  }

  // ----- a reorganisation abandons the finalised block -----

  // The rival is the tip; the other two blocks are accepted, lose, and take over its height.
  function Ahead(k: Cast): Chain { Advanced(k.env, Opening(k), k.rival) }

  function Behind(k: Cast): Chain { Stored(k.env, Stored(k.env, Ahead(k), k.first), k.second) }

  ghost predicate Outruns(k: Cast) {
    && Playable(k) && RunTxs(Money(k), k.rival.txs).Ok? && Weight(k.first) + Weight(k.second) <= Weight(k.rival)
    && Replay(Money(k), [k.first, k.second]).ok && Id(k, k.rival) != "" && Id(k, k.second) != ""
  }

  lemma AheadInv(k: Cast)
    requires Outruns(k)
    ensures Submit(k.env, Opening(k), [], k.rival) == (Ahead(k), true)
    ensures Inv(k.env, Id(k, k.root), Ahead(k), {Id(k, k.rival)})
    ensures Ahead(k).tipWork == Weight(k.root) + Weight(k.rival) && Ahead(k).work[Id(k, k.root)] == Weight(k.root)
  {
    var env, c := k.env, Opening(k);
    GenesisInv(env, k.root, Money(k));
    Distinct(k);
    assert Connects(env, c, k.rival) && ExtendsTip(c, k.rival);
    assert Submit(env, c, [], k.rival) == (Ahead(k), true);
    SubmitKeepsInv(env, Id(k, k.root), c, {}, [], k.rival);
    assert {} + {Id(k, k.rival)} == {Id(k, k.rival)};
    WorkBounds(k.root.header.bits);
    WorkBounds(k.rival.header.bits);
    SmallSum(Weight(k.root), Weight(k.rival));
  }

  lemma FirstLoses(k: Cast)
    requires Outruns(k)
    ensures var c := Stored(k.env, Ahead(k), k.first);
            && Submit(k.env, Ahead(k), [], k.first) == (c, true)
            && Inv(k.env, Id(k, k.root), c, {Id(k, k.rival)})
            && c.work[Id(k, k.first)] == Weight(k.root) + Weight(k.first)
  {
    AheadInv(k);
    Distinct(k);
    WorkBounds(k.root.header.bits);
    WorkBounds(k.first.header.bits);
    SmallSum(Weight(k.root), Weight(k.first));
    assert Connects(k.env, Ahead(k), k.first) && !ExtendsTip(Ahead(k), k.first);
    StoredInv(k.env, Id(k, k.root), Ahead(k), {Id(k, k.rival)}, k.first);
  }

  lemma SecondLoses(k: Cast)
    requires Outruns(k)
    ensures Submit(k.env, Stored(k.env, Ahead(k), k.first), [], k.second) == (Behind(k), true)
    ensures Inv(k.env, Id(k, k.root), Behind(k), {Id(k, k.rival)})
  {
    var c := Stored(k.env, Ahead(k), k.first);
    FirstLoses(k);
    SecondIsLight(k);
    LightIsStored(k.env, c, k.second);
    StoredInv(k.env, Id(k, k.root), c, {Id(k, k.rival)}, k.second);
  }

  lemma SecondIsLight(k: Cast)
    requires Outruns(k)
    ensures var c := Stored(k.env, Ahead(k), k.first);
            Connects(k.env, c, k.second) && !ExtendsTip(c, k.second) && NewWork(c, k.second) <= c.tipWork
  {
    var c := Stored(k.env, Ahead(k), k.first);
    SecondConnects(k);
    AheadInv(k);
    FirstLoses(k);
    WorkBounds(k.root.header.bits);
    WorkBounds(k.first.header.bits);
    ChildWork(c, k.second, Weight(k.root) + Weight(k.first));
  }

  lemma SecondConnects(k: Cast)
    requires Outruns(k)
    ensures var c := Stored(k.env, Ahead(k), k.first);
            && Connects(k.env, c, k.second) && !ExtendsTip(c, k.second)
            && k.second.header.prev == Id(k, k.first) && Id(k, k.first) in c.work && c.tipWork == Ahead(k).tipWork
  {
    Distinct(k);
  }

  lemma ChildWork(c: Chain, b: Block, w: nat)
    requires b.header.prev in c.work && c.work[b.header.prev] == w <= 1000
    ensures NewWork(c, b) == w + Work64(b.header.bits)
  {
    WorkBounds(b.header.bits);
    SmallSum(w, Work64(b.header.bits));
  }

  lemma LightIsStored(env: Env, c: Chain, b: Block)
    requires Fit(env, b) && Connects(env, c, b) && b.header.height > 0 && !ExtendsTip(c, b) && NewWork(c, b) <= c.tipWork
    ensures Submit(env, c, [], b) == (Stored(env, c, b), true)
  {
  }

  lemma BehindBlocks(k: Cast)
    requires Outruns(k)
    ensures var c := Behind(k);
            && c.tip == Some(Tip(1, Id(k, k.rival)))
            && Id(k, k.first) in c.headers && c.headers[Id(k, k.first)] == k.first.header && Id(k, k.first) in c.blocks && c.blocks[Id(k, k.first)] == k.first
            && Id(k, k.second) in c.headers && c.headers[Id(k, k.second)] == k.second.header && Id(k, k.second) in c.blocks && c.blocks[Id(k, k.second)] == k.second
            && BlockAt(c.blocks, c.hashAt, 1) == Some(k.first) && c.hashAt[1] == Id(k, k.first)
  {
    Distinct(k);
  }

  lemma BehindLinked(k: Cast)
    requires Outruns(k)
    ensures Closed(HeadersOf(Behind(k).blocks)) && Linked(Behind(k).headers)
  {
    SecondLoses(k);
    StoredAgrees(k.env, Opening(k), k.rival);
    StoredAgrees(k.env, Ahead(k), k.first);
    StoredAgrees(k.env, Stored(k.env, Ahead(k), k.first), k.second);
    AgreeIsLinked(Behind(k));
  }

  // The second block's ancestor at height one is the first, not the rival.
  lemma SecondOffRival(k: Cast)
    requires Outruns(k)
    ensures Closed(HeadersOf(Behind(k).blocks))
    ensures AncestorAt(HeadersOf(Behind(k).blocks), Id(k, k.second), 1) == Some(Id(k, k.first)) != Some(Id(k, k.rival))
  {
    BehindLinked(k);
    BehindBlocks(k);
    Distinct(k);
    var s := HeadersOf(Behind(k).blocks);
    assert s[Id(k, k.second)] == k.second.header && s[Id(k, k.first)] == k.first.header;
    assert AncestorAt(s, Id(k, k.second), 1) == AncestorAt(s, Id(k, k.first), 1);
  }

  lemma BehindStep(k: Cast)
    requires Outruns(k)
    ensures Closed(HeadersOf(Behind(k).blocks)) && Linked(Behind(k).headers)
    ensures ReorgStep(k.env, Behind(k), MovedTo(k.env, Behind(k), k.first, k.second), Some(1), [],
                      Tip(2, Id(k, k.second)), Tip(1, Id(k, k.first)), [Id(k, k.second)])
    ensures Permitted(k.env, Behind(k).blocks, Behind(k).hashAt, Some(1), Id(k, k.second))
  {
    var c := Behind(k);
    BehindLinked(k);
    BehindBlocks(k);
    SecondOffRival(k);
    ForkAtParent(k.env, c, Tip(1, Id(k, k.rival)), k.first, k.second);
    CarriedToChild(k.env, c, k.first, k.second);
  }

  // The finality check, the rebuild and every block of the path let the reorganisation through.
  lemma BehindReorganises(k: Cast)
    requires Outruns(k)
    ensures Closed(HeadersOf(Behind(k).blocks)) && Linked(Behind(k).headers)
    ensures CanReorg(k.env, Behind(k), Some(1), [], Tip(1, Id(k, k.rival)), Tip(2, Id(k, k.second)))
    ensures Reorged(k.env, Behind(k), Some(1), [], Some(Tip(2, Id(k, k.second)))) == MovedTo(k.env, Behind(k), k.first, k.second)
  {
    var c, c', head, fork := Behind(k), MovedTo(k.env, Behind(k), k.first, k.second), Tip(2, Id(k, k.second)), Tip(1, Id(k, k.first));
    BehindStep(k);
    Distinct(k);
    assert c.tip == Some(Tip(1, Id(k, k.rival)));
    ReorgStepCan(k.env, c, c', Some(1), [], head, fork, [head.hash]);
    ReorgStepIs(k.env, c, c', Some(1), [], head, fork, [head.hash]);
  }

  /** Two validators finalise the rival, which is the tip. The other two blocks are accepted and lose,
      and the first of them takes over the finalised height in the index. A reorganisation towards
      the second passes the finality check and goes through: the tip leaves the finalised block. */
  lemma FinalisedAndReorganised(k: Cast, law: J.Law)
    requires Outruns(k) && law == J.Law(k.env, TwoThirds(), Pairs(), Equal())
    ensures var h, head := Id(k, k.rival), Some(Tip(2, Id(k, k.second)));
            var n1 := J.After(law, J.Node(Ahead(k), F.Fresh()), J.Posted(Ballot("v", h)));
            var n2 := J.After(law, n1, J.Posted(Ballot("w", h)));
            var n3 := J.After(law, n2, J.Submitted(k.first, []));
            var n4 := J.After(law, n3, J.Submitted(k.second, []));
            Deserts(k, n4, J.After(law, n4, J.Reorganised(head, [])))
  {
    FirstBallot(law, Ahead(k), Id(k, k.rival));
    SecondBallot(law, Ahead(k), Id(k, k.rival));
    FirstLoses(k);
    SecondLoses(k);
    DesertedFrom(k, law, J.Node(Behind(k), F.Final(TwoVotes(Id(k, k.rival)), Some(1), Id(k, k.rival))));
  }

  // Before and after the reorganisation.
  ghost predicate Deserts(k: Cast, n: J.Node, n': J.Node) {
    && n.final.height == Some(1) && n.final.hash == Id(k, k.rival) && n'.final == n.final && n.chain == Behind(k)
    && J.FinalOnTip(n) && n'.chain.tip == Some(Tip(2, Id(k, k.second)))
    && Closed(HeadersOf(n'.chain.blocks)) && !J.FinalOnTip(n')
  }

  lemma DesertedFrom(k: Cast, law: J.Law, n: J.Node)
    requires Outruns(k) && law.env == k.env
    requires n.chain == Behind(k) && n.final.height == Some(1) && n.final.hash == Id(k, k.rival)
    ensures Deserts(k, n, J.After(law, n, J.Reorganised(Some(Tip(2, Id(k, k.second))), [])))
  {
    ReorganisedFrom(k, law, n);
    StillOnRival(k, n);
    OffRival(k, n.(chain := MovedTo(k.env, Behind(k), k.first, k.second)));
  }

  lemma ReorganisedFrom(k: Cast, law: J.Law, n: J.Node)
    requires Outruns(k) && law.env == k.env && n.chain == Behind(k) && n.final.height == Some(1)
    ensures J.After(law, n, J.Reorganised(Some(Tip(2, Id(k, k.second))), [])) == n.(chain := MovedTo(k.env, Behind(k), k.first, k.second))
  {
    BehindReorganises(k);
    BehindBlocks(k);
    J.ReorganisedIs(law, n, Tip(2, Id(k, k.second)), [], MovedTo(k.env, Behind(k), k.first, k.second));
  }

  lemma StillOnRival(k: Cast, n: J.Node)
    requires Outruns(k) && n.chain == Behind(k) && n.final.height == Some(1) && n.final.hash == Id(k, k.rival)
    ensures J.FinalOnTip(n)
  {
    SecondLoses(k);
    assert Id(k, k.rival) in HeadersOf(Behind(k).blocks);
  }

  lemma OffRival(k: Cast, n: J.Node)
    requires Outruns(k) && n.chain.blocks == Behind(k).blocks && n.chain.tip == Some(Tip(2, Id(k, k.second)))
    requires n.final.height == Some(1) && n.final.hash == Id(k, k.rival)
    ensures Closed(HeadersOf(n.chain.blocks)) && !J.FinalOnTip(n)
  {
    SecondOffRival(k);
  }

  // ----- there are such casts -----

  // The bits are those of the second block and the rival.
  function Troupe(allocs: seq<Allocation>, a: seq<Tx>, b: seq<Tx>, bBits: nat, c: seq<Tx>, cBits: nat): Cast {
    var root := Head(0, "", Light(), 0);
    var first := Head(1, ZeroHashOf(root), Light(), 1);
    Cast(Bench(allocs), Block(root, []), Block(first, a), Block(Head(2, ZeroHashOf(first), bBits, 2), b),
         Block(Head(1, ZeroHashOf(root), cBits, 3), c))
  }

  predicate Plain(txs: seq<Tx>) { txs == [] || txs == [Pay(1)] || txs == [Pay(2)] }

  lemma BenchFits(allocs: seq<Allocation>, b: Block)
    requires b.header.chainId == "c" && CompactToBig(b.header.bits) > 0 && Plain(b.txs)
    ensures Fit(Bench(allocs), b)
  {
    PayIsFine(1);
    PayIsFine(2);
    BenchMeetsTarget(b.header, b.header.bits);
  }

  lemma TroupePlays(allocs: seq<Allocation>, a: seq<Tx>, b: seq<Tx>, bBits: nat, c: seq<Tx>, cBits: nat)
    requires Plain(a) && Plain(b) && Plain(c) && CompactToBig(bBits) > 0 && CompactToBig(cBits) > 0
    ensures Playable(Troupe(allocs, a, b, bBits, c, cBits))
    ensures var k := Troupe(allocs, a, b, bBits, c, cBits); Id(k, k.first) != "" && Id(k, k.second) != "" && Id(k, k.rival) != ""
  {
    var k := Troupe(allocs, a, b, bBits, c, cBits);
    BenchCollisionFree(allocs);
    WorkOfBits();
    BenchFits(allocs, k.first);
    BenchFits(allocs, k.second);
    BenchFits(allocs, k.rival);
  }

  // The parts: as SpendTwice, as RivalDisplaces with a wrong ledger, and as SwitchWithoutLedger.
  ghost predicate SpendsTwice(k: Cast) {
    && Playable(k) && RunTxs(Money(k), k.first.txs).Ok? && k.second.txs == k.first.txs
    && |k.first.txs| == 1 && k.first.txs[0].txType != Coinbase
  }

  ghost predicate Misleads(k: Cast) {
    && Playable(k) && RunTxs(Money(k), k.first.txs).Ok? && RunTxs(Money(k), k.second.txs).Ok?
    && Weight(k.rival) <= Weight(k.first)
    && Replay(Money(k), [k.first, k.second]).ledger != Replay(Money(k), [k.rival, k.second]).ledger
  }

  ghost predicate Usurps(k: Cast) {
    && Playable(k) && RunTxs(Money(k), k.first.txs).Ok? && Weight(k.rival) > Weight(k.first)
    && DistinctAddresses(k.env.allocs) && !DbTxs(Money(k), k.rival.txs).ok
  }

  // As BlockRewritten, with a wrong ledger; as RefusedThenAdopted; and as LighterTakesTip.
  ghost predicate Empties(k: Cast) {
    && Playable(k) && RunTxs(Money(k), k.first.txs).Ok? && k.first.txs != [] && Fit(k.env, Block(k.first.header, []))
    && DbTxs(Money(k), k.first.txs).ledger != DbTxs(Money(k), []).ledger
  }

  ghost predicate Adopted(k: Cast) { Playable(k) && RunTxs(Money(k), k.first.txs).Err? && Weight(k.second) > 0 }

  ghost predicate Strays(k: Cast) {
    Refusable(k) && Weight(k.first) < Weight(k.rival) <= Weight(k.first) + Weight(k.second)
  }

  // As ReorgRewinds, with a wrong ledger.
  ghost predicate Rewinds(k: Cast) {
    && Playable(k) && RunTxs(Money(k), k.first.txs).Ok? && RunTxs(Money(k), k.second.txs).Ok?
    && DbTxs(Money(k), k.rival.txs).ok && Id(k, k.second) != ""
    && DbTxs(Money(k), k.rival.txs).ledger != Replay(Money(k), [k.first, k.second]).ledger
  }

  /** Every scenario above has a cast: with a funded transfer for the double spend, the displaced and
      the rewritten block and the rewound ledger, with an unfunded one for the refused block and the
      switch whose rebuild fails, with two transfers in order for the reorganisation that leaves the
      tip work, and with empty blocks for the one that leaves the finalised block. */
  lemma CastsExist()
    ensures exists k: Cast :: SpendsTwice(k)
    ensures exists k: Cast :: Misleads(k)
    ensures exists k: Cast :: Usurps(k)
    ensures exists k: Cast :: Empties(k)
    ensures exists k: Cast :: Adopted(k)
    ensures exists k: Cast :: Strays(k)
    ensures exists k: Cast :: Rewinds(k)
    ensures exists k: Cast :: Outruns(k)
  {
    WorkOfBits();
    GenesisFunds();
    TroupePlays(Funds(), [Pay(1)], [Pay(1)], Light(), [], Light());
    PlaysTwice(Troupe(Funds(), [Pay(1)], [Pay(1)], Light(), [], Light()));
    TroupePlays(Funds(), [Pay(1)], [], Light(), [], Light());
    PlaysMisleading(Troupe(Funds(), [Pay(1)], [], Light(), [], Light()));
    TroupePlays([], [], [], Light(), [Pay(1)], Heavy());
    PlaysUsurper(Troupe([], [], [], Light(), [Pay(1)], Heavy()));
    MoreCastsExist();
    ReorganisingCastsExist();
  }

  lemma ReorganisingCastsExist()
    ensures exists k: Cast :: Rewinds(k)
    ensures exists k: Cast :: Outruns(k)
  {
    WorkOfBits();
    GenesisFunds();
    TroupePlays(Funds(), [Pay(1)], [], Light(), [], Light());
    PlaysRewound(Troupe(Funds(), [Pay(1)], [], Light(), [], Light()));
    TroupePlays(Funds(), [], [], Light(), [], Heavy());
    PlaysOutrun(Troupe(Funds(), [], [], Light(), [], Heavy()));
  }

  lemma PlaysRewound(k: Cast)
    requires Playable(k) && k.first.txs == [Pay(1)] && k.second.txs == k.rival.txs == [] && Money(k) == Ledger(map["a" := 10], map[])
    requires Id(k, k.second) != ""
    ensures Rewinds(k)
  {
    PayRuns(Money(k), 1);
    PaidOrNot(Money(k), k.first, k.rival, k.second);
    EmptyAfter(Money(k), k.rival, k.second);
  }

  lemma PlaysOutrun(k: Cast)
    requires Playable(k) && k.first.txs == k.second.txs == k.rival.txs == [] && Weight(k.first) + Weight(k.second) <= Weight(k.rival)
    requires Id(k, k.rival) != "" && Id(k, k.second) != ""
    ensures Outruns(k)
  {
    assert [k.first, k.second][1..] == [k.second];
    ReplayOne(Money(k), k.second);
    assert DbTxs(Money(k), []) == Outcome(Money(k), true);
  }

  lemma MoreCastsExist()
    ensures exists k: Cast :: Empties(k)
    ensures exists k: Cast :: Adopted(k)
    ensures exists k: Cast :: Strays(k)
  {
    WorkOfBits();
    GenesisFunds();
    TroupePlays(Funds(), [Pay(1)], [], Light(), [], Light());
    PlaysEmptied(Troupe(Funds(), [Pay(1)], [], Light(), [], Light()));
    TroupePlays([], [Pay(1)], [], Light(), [], Light());
    PlaysAdopted(Troupe([], [Pay(1)], [], Light(), [], Light()));
    TroupePlays(Funds(), [Pay(1)], [Pay(2)], Heavy(), [], Heavy());
    PlaysStray(Troupe(Funds(), [Pay(1)], [Pay(2)], Heavy(), [], Heavy()));
  }

  lemma PlaysEmptied(k: Cast)
    requires Playable(k) && k.first.txs == [Pay(1)] && Money(k) == Ledger(map["a" := 10], map[])
    requires k.env == Bench(Funds()) && k.first.header.chainId == "c" && CompactToBig(k.first.header.bits) > 0
    ensures Empties(k)
  {
    PayRuns(Money(k), 1);
    BenchFits(Funds(), Block(k.first.header, []));
  }

  lemma PlaysAdopted(k: Cast)
    requires Playable(k) && k.first.txs == [Pay(1)] && k.env.allocs == [] && Weight(k.second) > 0
    ensures Adopted(k)
  {
    PayUnfunded(Money(k));
  }

  lemma PlaysStray(k: Cast)
    requires Playable(k) && k.first.txs == [Pay(1)] && k.second.txs == [Pay(2)] && Money(k) == Ledger(map["a" := 10], map[])
    requires Id(k, k.first) != "" && Weight(k.first) < Weight(k.rival) <= Weight(k.first) + Weight(k.second)
    ensures Strays(k)
  {
    PayRuns(Money(k), 1);
    PayOutOfTurn(Money(k));
    PayTwice(Money(k), k.first, k.second);
  }

  lemma PlaysTwice(k: Cast)
    requires Playable(k) && k.first.txs == k.second.txs == [Pay(1)] && Money(k) == Ledger(map["a" := 10], map[])
    ensures SpendsTwice(k)
  {
    PayRuns(Money(k), 1);
  }

  lemma PlaysMisleading(k: Cast)
    requires Playable(k) && k.first.txs == [Pay(1)] && k.second.txs == k.rival.txs == [] && Money(k) == Ledger(map["a" := 10], map[])
    requires k.first.header.bits == k.rival.header.bits
    ensures Misleads(k)
  {
    PayRuns(Money(k), 1);
    PaidOrNot(Money(k), k.first, k.rival, k.second);
  }

  lemma PlaysUsurper(k: Cast)
    requires Playable(k) && k.first.txs == [] && k.rival.txs == [Pay(1)] && k.env.allocs == [] && Weight(k.rival) > Weight(k.first)
    ensures Usurps(k)
  {
    PayUnfunded(Money(k));
  }

  lemma EmptyAfter(l: Ledger, a: Block, b: Block)
    requires b.txs == []
    ensures Replay(l, [a, b]).ledger == DbTxs(l, a.txs).ledger
  {
    assert [a, b][1..] == [b] && [b][1..] == [];
    var o := DbTxs(l, a.txs);
    if o.ok { assert Replay(o.ledger, [b]) == Replay(o.ledger, [b][1..]); }
  }

  lemma PaidOrNot(l: Ledger, a: Block, r: Block, b: Block)
    requires a.txs == [Pay(1)] && r.txs == [] && b.txs == [] && NonceOf(l.nonce, "a") == 0 && Balance(l.bal, "a") >= 1
    ensures Replay(l, [a, b]).ledger != Replay(l, [r, b]).ledger
  {
    PayRuns(l, 1);
    EmptyAfter(l, a, b);
    EmptyAfter(l, r, b);
  }

  lemma PayTwice(l: Ledger, a: Block, b: Block)
    requires a.txs == [Pay(1)] && b.txs == [Pay(2)] && NonceOf(l.nonce, "a") == 0 && Balance(l.bal, "a") >= 2 && Balance(l.bal, "b") >= 0
    ensures Replay(l, [a, b]).ok
  {
    PayRuns(l, 1);
    var o := DbTxs(l, a.txs);
    assert [a, b][1..] == [b];
    PayRuns(o.ledger, 2);
    ReplayOne(o.ledger, b);
  }
}

/** Fork choice, reorganisation and weighted finality together. The first reads the anchor, the second
    the finalised height, the third writes the finalised checkpoint; a posted vote may move either
    (core/node/forkchoice.go, core/node/reorg_best.go, core/node/finality_weighted.go, header sync in
    core/node/sync.go, vote ingest in core/node/node.go). */
module JointFinality {
  import opened Wrappers
  import opened ChainTypes
  import opened Storage
  import opened StateReplay
  import opened Ancestry
  import opened Pow
  import opened WeightedSets
  import opened NodeTypes
  import opened RegistryFinality
  import B = BlockSubmission
  import F = Finality
  import M = MainChain
  import R = Reorg

  datatype Law = Law(env: Env, rule: Rule, reg: F.Registry, config: Weights)

  datatype Node = Node(chain: Chain, final: F.Final)

  // Blocks, votes and headers from the network, and reorganisations towards the recorded header tip.
  datatype Event =
    | Submitted(block: Block, snaps: seq<Snapshot>)
    | Posted(vote: VoteRecord)
    | Synced(header: Header)
    | Reorganised(headerTip: Option<Tip>, snaps: seq<Snapshot>)

  // ----- one event -----

  predicate Counts(law: Law, v: VoteRecord) {
    v.chainId == law.rule.chainId && v.pubkey in law.config && law.rule.sigOk(v)
  }

  ghost function AfterVote(law: Law, n: Node, v: VoteRecord): Node {
    var votes := F.Ingest(n.final.votes, v);
    var final := if (v.height, v.pubkey) in n.final.votes then n.final
                 else F.Finalize(law.reg, n.final.(votes := votes), v.height);
    var anchor := if Reached(law.rule, law.reg, law.config, votes, v.height, v.blockHash)
                  then Some(Tip(v.height, v.blockHash)) else n.chain.anchor;
    Node(n.chain.(anchor := anchor), final)
  }

  // A header above genesis that meets its target and whose parent has work is stored with its work.
  function WithHeader(env: Env, c: Chain, hdr: Header): Chain {
    var h := env.hashOf(hdr);
    if hdr.height > 0 && MeetsTarget(h, hdr.bits) && hdr.prev in c.work
    then c.(headers := c.headers[h := hdr], work := c.work[h := Cumulative(c.work[hdr.prev], Work64(hdr.bits))])
    else c
  }

  // The reorganisation is modelled over headers each one height above its parent, towards a header
  // tip that carries its header's height.
  ghost predicate Sound(n: Node, e: Event) {
    e.Reorganised? ==>
      && Linked(n.chain.headers) && Linked(HeadersOf(n.chain.blocks))
      && (e.headerTip.Some? && e.headerTip.value.hash in n.chain.headers ==>
            n.chain.headers[e.headerTip.value.hash].height == e.headerTip.value.height)
  }

  ghost function After(law: Law, n: Node, e: Event): Node {
    match e
    case Submitted(b, snaps) => n.(chain := B.Submit(law.env, n.chain, snaps, b).0)
    case Posted(v) => if Counts(law, v) then AfterVote(law, n, v) else n
    case Synced(hdr) => n.(chain := WithHeader(law.env, n.chain, hdr))
    case Reorganised(headerTip, snaps) =>
      if Sound(n, e) then n.(chain := R.Reorged(law.env, n.chain, n.final.height, snaps, headerTip)) else n
  }

  lemma ReorganisedIs(law: Law, n: Node, head: Tip, snaps: seq<Snapshot>, c': Chain)
    requires Linked(n.chain.headers) && Linked(HeadersOf(n.chain.blocks))
    requires head.hash in n.chain.headers && n.chain.headers[head.hash].height == head.height
    requires R.Reorged(law.env, n.chain, n.final.height, snaps, Some(head)) == c'
    ensures After(law, n, Reorganised(Some(head), snaps)) == n.(chain := c')
  {
  }

  function Taken(law: Law, n: Node, e: Event): set<Hash> {
    if e.Submitted? then B.Accepted(law.env, n.chain, e.snaps, e.block) else {}
  }

  ghost predicate SoundRun(law: Law, n: Node, events: seq<Event>)
    decreases |events|
  {
    events != [] ==> Sound(n, events[0]) && SoundRun(law, After(law, n, events[0]), events[1..])
  }

  ghost function Run(law: Law, n: Node, events: seq<Event>): Node
    decreases |events|
  {
    if events == [] then n else Run(law, After(law, n, events[0]), events[1..])
  }

  ghost predicate Inv(law: Law, genesis: Hash, n: Node, accepted: set<Hash>) {
    B.Inv(law.env, genesis, n.chain, accepted)
  }

  ghost predicate Rooted(law: Law, genesis: Hash, n: Node) { B.Rooted(law.env, genesis, n.chain) }

  ghost predicate OnTip(n: Node, t: Tip) {
    && Closed(HeadersOf(n.chain.blocks)) && n.chain.tip.Some?
    && B.Descends(HeadersOf(n.chain.blocks), n.chain.tip.value.hash, t)
  }

  // A synced header changes no stored block's work.
  lemma SyncKeepsRooted(env: Env, genesis: Hash, c: Chain, hdr: Header)
    requires CollisionFree(env) && B.Rooted(env, genesis, c)
    ensures B.Rooted(env, genesis, WithHeader(env, c, hdr))
  {
    var h, s := env.hashOf(hdr), HeadersOf(c.blocks);
    if h in c.blocks {
      assert env.hashOf(c.blocks[h].header) == env.hashOf(hdr);
      assert h in s;
    }
  }

  // ----- which submissions take the tip off a block -----

  // The block overtakes the tip on a chain without `t`.
  ghost predicate Abandons(env: Env, c: Chain, snaps: seq<Snapshot>, b: Block, t: Tip)
    requires c.anchor.Some?
  {
    B.Overtakes(env, c, snaps, b) && !B.Descends(HeadersOf(B.Stored(env, c, b).blocks), env.hashOf(b.header), t)
  }

  /** A submission leaves the tip on a block of its chain, finalised or not and wherever the anchor
      is, exactly when it does not overtake the tip on a chain without that block. */
  lemma SubmissionLeavesIff(env: Env, genesis: Hash, c: Chain, snaps: seq<Snapshot>, b: Block, t: Tip)
    requires CollisionFree(env) && B.Rooted(env, genesis, c) && B.Descends(HeadersOf(c.blocks), c.tip.value.hash, t)
    ensures var c' := B.Submit(env, c, snaps, b).0;
            && B.Rooted(env, genesis, c')
            && (B.Descends(HeadersOf(c'.blocks), c'.tip.value.hash, t) <==> !Abandons(env, c, snaps, b, t))
            && (Abandons(env, c, snaps, b, t) ==> c'.tip == Some(Tip(b.header.height, env.hashOf(b.header))))
  {
    B.SubmitTip(env, genesis, c, snaps, b);
    B.SubmitKeepsRooted(env, genesis, c, snaps, b);
    if B.Lands(env, c, snaps, b) {
      B.StoredDescends(env, genesis, c, b, c.tip.value.hash, t);
      var s' := HeadersOf(B.Stored(env, c, b).blocks);
      if B.ExtendsTip(c, b) { ChildDescends(s', env.hashOf(b.header), t); }
    }
  }

  lemma ChildDescends(s: Store, h: Hash, t: Tip)
    requires Closed(s) && h in s && s[h].height > 0 && B.Descends(s, s[h].prev, t)
    ensures B.Descends(s, h, t)
  {
  }

  /** What lies on the anchor's ancestry is never abandoned. */
  lemma CoveredIsNeverAbandoned(env: Env, genesis: Hash, c: Chain, snaps: seq<Snapshot>, b: Block, t: Tip)
    requires CollisionFree(env) && B.Rooted(env, genesis, c) && B.Descends(HeadersOf(c.blocks), c.anchor.value.hash, t)
    ensures !Abandons(env, c, snaps, b, t)
  {
    if B.Overtakes(env, c, snaps, b) {
      var s', h := HeadersOf(B.Stored(env, c, b).blocks), env.hashOf(b.header);
      B.StoredDescends(env, genesis, c, b, c.anchor.value.hash, t);
      AncestorThrough(s', h, c.anchor.value.height, t.height);
    }
  }

  // ----- every event -----

  // The event takes the tip off `t`: a block that overtakes on a chain without it, or a
  // reorganisation whose way does not lead over it.
  ghost predicate Leaves(law: Law, n: Node, e: Event, t: Tip) {
    match e
    case Submitted(b, snaps) => n.chain.anchor.Some? && Abandons(law.env, n.chain, snaps, b, t)
    case Reorganised(headerTip, snaps) => Sound(n, e) && M.Strands(law.env, n.chain, n.final.height, snaps, headerTip, t)
    case Posted(_) => false
    case Synced(_) => false
  }

  lemma EventLeavesIff(law: Law, genesis: Hash, n: Node, e: Event, t: Tip)
    requires CollisionFree(law.env) && Rooted(law, genesis, n) && OnTip(n, t) && Sound(n, e)
    ensures Rooted(law, genesis, After(law, n, e))
    ensures OnTip(After(law, n, e), t) <==> !Leaves(law, n, e, t)
  {
    match e {
      case Submitted(b, snaps) => SubmissionLeavesIff(law.env, genesis, n.chain, snaps, b, t);
      case Posted(v) => VoteLeavesNothing(law, genesis, n, v, t);
      case Synced(hdr) => HeaderLeavesNothing(law, genesis, n, hdr, t);
      case Reorganised(headerTip, snaps) => ReorganisationLeavesIff(law, genesis, n, headerTip, snaps, t);
    }
  }

  lemma VoteLeavesNothing(law: Law, genesis: Hash, n: Node, v: VoteRecord, t: Tip)
    requires Rooted(law, genesis, n) && OnTip(n, t)
    ensures Rooted(law, genesis, After(law, n, Posted(v))) && OnTip(After(law, n, Posted(v)), t)
  {
    var n' := After(law, n, Posted(v));
    assert n'.chain == n.chain.(anchor := n'.chain.anchor) && n'.chain.anchor.Some?;
  }

  lemma HeaderLeavesNothing(law: Law, genesis: Hash, n: Node, hdr: Header, t: Tip)
    requires CollisionFree(law.env) && Rooted(law, genesis, n) && OnTip(n, t)
    ensures Rooted(law, genesis, After(law, n, Synced(hdr))) && OnTip(After(law, n, Synced(hdr)), t)
  {
    SyncKeepsRooted(law.env, genesis, n.chain, hdr);
  }

  lemma ReorganisationLeavesIff(law: Law, genesis: Hash, n: Node, headerTip: Option<Tip>, snaps: seq<Snapshot>, t: Tip)
    requires Rooted(law, genesis, n) && OnTip(n, t) && Sound(n, Reorganised(headerTip, snaps))
    ensures Rooted(law, genesis, After(law, n, Reorganised(headerTip, snaps)))
    ensures OnTip(After(law, n, Reorganised(headerTip, snaps)), t) <==>
            !M.Strands(law.env, n.chain, n.final.height, snaps, headerTip, t)
  {
    M.ReorgLeavesIff(law.env, genesis, n.chain, n.final.height, snaps, headerTip, t);
  }

  // At every moment of the run the tip descends from `t`.
  ghost predicate OnTipThroughout(law: Law, n: Node, events: seq<Event>, t: Tip)
    decreases |events|
  {
    OnTip(n, t) && (events != [] ==> OnTipThroughout(law, After(law, n, events[0]), events[1..], t))
  }

  ghost predicate NeverLeft(law: Law, n: Node, events: seq<Event>, t: Tip)
    decreases |events|
  {
    events != [] ==> !Leaves(law, n, events[0], t) && NeverLeft(law, After(law, n, events[0]), events[1..], t)
  }

  /** Over every run of submissions, votes, synced headers and reorganisations, successful or not and
      whatever anchors the votes set, a block of the tip's chain stays on it throughout exactly when
      no event of the run takes the tip off it. */
  lemma {:induction false} StaysIff(law: Law, genesis: Hash, n: Node, events: seq<Event>, t: Tip)
    requires CollisionFree(law.env) && Rooted(law, genesis, n) && OnTip(n, t) && SoundRun(law, n, events)
    ensures OnTipThroughout(law, n, events, t) <==> NeverLeft(law, n, events, t)
    decreases |events|
  {
    if events != [] {
      var n' := After(law, n, events[0]);
      EventLeavesIff(law, genesis, n, events[0], t);
      if OnTip(n', t) { StaysIff(law, genesis, n', events[1..], t); }
    }
  }

  // ----- when a finalised block is safe -----

  function Checkpoint(f: F.Final): Tip
    requires f.height.Some?
  {
    Tip(f.height.value, f.hash)
  }

  /** Where the tip descends from the anchor, it descends, up to the anchor's height, from exactly the
      blocks the anchor descends from. */
  lemma OnTipIffOnAnchor(c: Chain, t: Tip)
    requires Closed(HeadersOf(c.blocks)) && c.tip.Some? && c.anchor.Some? && t.height <= c.anchor.value.height
    requires B.Descends(HeadersOf(c.blocks), c.tip.value.hash, c.anchor.value)
    ensures B.Descends(HeadersOf(c.blocks), c.tip.value.hash, t) <==> B.Descends(HeadersOf(c.blocks), c.anchor.value.hash, t)
  {
    AncestorThrough(HeadersOf(c.blocks), c.tip.value.hash, c.anchor.value.height, t.height);
  }

  ghost predicate FinalOnTip(n: Node) {
    && Closed(HeadersOf(n.chain.blocks)) && n.chain.tip.Some?
    && (n.final.height.Some? ==> B.Descends(HeadersOf(n.chain.blocks), n.chain.tip.value.hash, Checkpoint(n.final)))
  }

  // The tip descends from the anchor, and the anchor from the finalised block, if there is one.
  ghost predicate Covered(n: Node) {
    && n.chain.anchor.Some? && OnTip(n, n.chain.anchor.value)
    && (n.final.height.Some? ==> B.Descends(HeadersOf(n.chain.blocks), n.chain.anchor.value.hash, Checkpoint(n.final)))
  }

  lemma CoveredIsOnTip(n: Node)
    requires Covered(n)
    ensures FinalOnTip(n)
  {
    if n.final.height.Some? { OnTipIffOnAnchor(n.chain, Checkpoint(n.final)); }
  }

  // A vote is harmless if what it finalises and the anchor it sets are still covered, and a
  // reorganisation if its way leads over the anchor. Blocks and headers always are.
  ghost predicate Guarded(law: Law, n: Node, e: Event) {
    match e
    case Posted(_) => Covered(After(law, n, e))
    case Reorganised(_, _) => n.chain.anchor.Some? && !Leaves(law, n, e, n.chain.anchor.value)
    case Submitted(_, _) => true
    case Synced(_) => true
  }

  ghost predicate GuardedRun(law: Law, n: Node, events: seq<Event>)
    decreases |events|
  {
    events != [] ==> Guarded(law, n, events[0]) && GuardedRun(law, After(law, n, events[0]), events[1..])
  }

  lemma SubmitKeepsCovered(law: Law, genesis: Hash, n: Node, b: Block, snaps: seq<Snapshot>)
    requires CollisionFree(law.env) && Rooted(law, genesis, n) && Covered(n)
    ensures Covered(After(law, n, Submitted(b, snaps)))
  {
    var c := n.chain;
    B.SubmitTip(law.env, genesis, c, snaps, b);
    SubmissionLeavesIff(law.env, genesis, c, snaps, b, c.anchor.value);
    AnchorNeverAbandoned(law.env, genesis, c, snaps, b);
    if B.Lands(law.env, c, snaps, b) && n.final.height.Some? {
      B.StoredDescends(law.env, genesis, c, b, c.anchor.value.hash, Checkpoint(n.final));
    }
  }

  lemma AnchorNeverAbandoned(env: Env, genesis: Hash, c: Chain, snaps: seq<Snapshot>, b: Block)
    requires CollisionFree(env) && B.Rooted(env, genesis, c)
    ensures !Abandons(env, c, snaps, b, c.anchor.value)
  {
  }

  lemma EventKeepsCovered(law: Law, genesis: Hash, n: Node, e: Event)
    requires CollisionFree(law.env) && Rooted(law, genesis, n) && Covered(n) && Sound(n, e) && Guarded(law, n, e)
    ensures Rooted(law, genesis, After(law, n, e)) && Covered(After(law, n, e))
  {
    EventLeavesIff(law, genesis, n, e, n.chain.anchor.value);
    if e.Submitted? { SubmitKeepsCovered(law, genesis, n, e.block, e.snaps); }
  }

  /** Over every run in which whatever is finalised stays covered by the anchor, the finalised block
      stays on the tip's chain. */
  lemma {:induction false} FinalisedStays(law: Law, genesis: Hash, n: Node, events: seq<Event>)
    requires CollisionFree(law.env) && Rooted(law, genesis, n) && Covered(n)
    requires SoundRun(law, n, events) && GuardedRun(law, n, events)
    ensures Covered(Run(law, n, events)) && FinalOnTip(Run(law, n, events))
    decreases |events|
  {
    if events == [] {
      CoveredIsOnTip(n);
    } else {
      EventKeepsCovered(law, genesis, n, events[0]);
      FinalisedStays(law, genesis, After(law, n, events[0]), events[1..]);
    }
  }
}

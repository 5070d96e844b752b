/** Moving to the best header chain (core/node/reorg_best.go, enforceFinalizedOnCandidate in
    core/node/node.go, core/node/block_header_match.go). */
module Reorg {
  import opened Wrappers
  import opened ChainTypes
  import opened LedgerSpec
  import opened Storage
  import opened StateApply
  import opened StateReplay
  import opened Ancestry
  import opened NodeTypes

  // ----- the fork point -----

  // The block indexed at this height has this hash.
  predicate OnMain(env: Env, blocks: map<Hash, Block>, hashAt: map<nat, Hash>, h: nat, hash: Hash) {
    BlockAt(blocks, hashAt, h).Some? && env.hashOf(BlockAt(blocks, hashAt, h).value.header) == hash
  }

  // The header chain and the main chain have the same block at this height.
  ghost predicate SharedAt(env: Env, headers: Store, blocks: map<Hash, Block>, hashAt: map<nat, Hash>, head: Hash, h: nat)
    requires Linked(headers)
  {
    var a := AncestorAt(headers, head, h);
    a.Some? && OnMain(env, blocks, hashAt, h, a.value)
  }

  // The highest shared height up to `curH`, or height zero without a hash if there is none.
  ghost predicate IsForkPoint(
    env: Env, headers: Store, blocks: map<Hash, Block>, hashAt: map<nat, Hash>, curH: nat, head: Hash, fork: Tip)
    requires Linked(headers)
  {
    && (forall k :: fork.height < k <= curH ==> !SharedAt(env, headers, blocks, hashAt, head, k))
    && if fork.height == 0 then fork.hash == ""
       else fork.height <= curH && SharedAt(env, headers, blocks, hashAt, head, fork.height)
            && AncestorAt(headers, head, fork.height) == Some(fork.hash)
  }

  // The walk down from `head` meets the main chain, or reaches a header of height zero.
  ghost predicate Meets(env: Env, headers: Store, blocks: map<Hash, Block>, hashAt: map<nat, Hash>, curH: nat, head: Hash)
    requires Linked(headers)
  {
    AncestorAt(headers, head, 0).Some? || exists k :: 1 <= k <= curH && SharedAt(env, headers, blocks, hashAt, head, k)
  }

  /** Walks the header chain down and stops at the highest block it shares with the main
      chain; fails exactly if there is none and the header chain is broken above genesis. */
  method FindForkPoint(db: Db, env: Env, curH: nat, curHash: Hash, head: Hash) returns (r: Result<Tip, string>)
    requires Linked(db.headers)
    ensures curHash == "" ==> r == Ok(Tip(0, ""))
    ensures curHash != "" && r.Ok? ==> IsForkPoint(env, db.headers, db.blocks, db.hashAt, curH, head, r.value)
    ensures curHash != "" ==> (r.Ok? <==> Meets(env, db.headers, db.blocks, db.hashAt, curH, head))
  {
    if curHash == "" { return Ok(Tip(0, "")); }
    var cur := head;
    while true
      invariant forall k :: Rank(db.headers, cur) <= k <= curH ==> !SharedAt(env, db.headers, db.blocks, db.hashAt, head, k)
      invariant forall k :: 0 <= k < Rank(db.headers, cur) ==> AncestorAt(db.headers, head, k) == AncestorAt(db.headers, cur, k)
      invariant AncestorAt(db.headers, head, 0) == AncestorAt(db.headers, cur, 0)
      decreases Rank(db.headers, cur)
    {
      if cur !in db.headers { return Err("unknown_header"); }
      var h := db.headers[cur].height;
      assert AncestorAt(db.headers, head, h) == Some(cur);
      if h == 0 { return Ok(Tip(0, "")); }
      if h <= curH {
        if h in db.hashAt && db.hashAt[h] in db.blocks {
          if env.hashOf(db.blocks[db.hashAt[h]].header) == cur {
            assert SharedAt(env, db.headers, db.blocks, db.hashAt, head, h);
            return Ok(Tip(h, cur));
          }
        }
      }
      cur := db.headers[cur].prev;
    }
  }

  // ----- the path above the fork point -----

  method ReverseInPlace(s0: seq<Hash>) returns (s: seq<Hash>)
    ensures |s| == |s0| && forall k :: 0 <= k < |s| ==> s[k] == s0[|s0| - 1 - k]
  {
    s := s0;
    var i, j := 0, |s| - 1;
    while i < j
      invariant |s| == |s0| && 0 <= i && i + j == |s| - 1 && i <= j + 2
      invariant forall k :: 0 <= k < i || j < k < |s| ==> s[k] == s0[|s0| - 1 - k]
      invariant forall k :: i <= k <= j ==> s[k] == s0[k]
    {
      s := s[i := s[j]][j := s[i]];
      i, j := i + 1, j - 1;
    }
  }

  /** Exactly the ascending linked path, or an error if a header on it is missing. */
  method HeaderPathFromTo(db: Db, fromH: nat, toH: nat, tipHash: Hash) returns (r: Result<seq<Hash>, string>)
    requires Linked(db.headers)
    requires tipHash in db.headers ==> db.headers[tipHash].height <= toH
    ensures toH < fromH ==> r == Ok([])
    ensures toH >= fromH ==> (r.Ok? <==> PathUp(db.headers, tipHash, fromH).Some?)
    ensures toH >= fromH && r.Ok? ==> r.value == PathUp(db.headers, tipHash, fromH).value
  {
    if toH < fromH { return Ok([]); }
    var down: seq<Hash> := [];
    var cur := tipHash;
    ghost var whole := PathUp(db.headers, tipHash, fromH);
    ghost var below := whole;
    while true
      invariant below == PathUp(db.headers, cur, fromH) && whole.Some? == below.Some?
      invariant cur in db.headers ==> db.headers[cur].height <= toH
      invariant below.Some? ==> |whole.value| == |below.value| + |down| && whole.value[..|below.value|] == below.value
      invariant below.Some? ==> forall k :: 0 <= k < |down| ==> down[k] == whole.value[|whole.value| - 1 - k]
      decreases Rank(db.headers, cur)
    {
      if cur !in db.headers { return Err("unknown_header"); }
      if db.headers[cur].height < fromH { break; }
      if db.headers[cur].height <= toH { down := down + [cur]; }
      if db.headers[cur].height == fromH { below := Some([]); break; }
      cur := db.headers[cur].prev;
      below := PathUp(db.headers, cur, fromH);
    }
    var up := ReverseInPlace(down);
    assert up == whole.value;
    return Ok(up);
  }

  // ----- the checks on the way -----

  // The stored header under the block's own hash agrees with the block's header.
  predicate Matches(env: Env, headers: map<Hash, Header>, b: Block) {
    var h := env.hashOf(b.header);
    && h in headers && headers[h].height == b.header.height && headers[h].prev == b.header.prev
    && headers[h].bits == b.header.bits && headers[h].timeUnix == b.header.timeUnix && headers[h].txRoot == b.header.txRoot
  }

  /** A block is refused as soon as the header stored under its hash is missing or differs from its own
      in height, parent, bits, time or transaction root, and in no other case. */
  lemma MismatchIff(env: Env, headers: map<Hash, Header>, b: Block)
    ensures !Matches(env, headers, b) <==>
            || env.hashOf(b.header) !in headers
            || headers[env.hashOf(b.header)].height != b.header.height
            || headers[env.hashOf(b.header)].prev != b.header.prev
            || headers[env.hashOf(b.header)].bits != b.header.bits
            || headers[env.hashOf(b.header)].timeUnix != b.header.timeUnix
            || headers[env.hashOf(b.header)].txRoot != b.header.txRoot
  {
  }

  method BlockMatchesStoredHeader(db: Db, env: Env, b: Block) returns (err: Option<string>)
    ensures err.None? == Matches(env, db.headers, b)
  {
    var h := env.hashOf(b.header);
    if h !in db.headers { return Some("missing_header"); }
    var hdr := db.headers[h];
    if hdr.height != b.header.height { return Some("height_mismatch"); }
    if hdr.prev != b.header.prev { return Some("prev_mismatch"); }
    if hdr.bits != b.header.bits { return Some("bits_mismatch"); }
    if hdr.timeUnix != b.header.timeUnix { return Some("ts_mismatch"); }
    if hdr.txRoot != b.header.txRoot { return Some("txroot_mismatch"); }
    return None;
  }

  // The candidate's stored ancestor at the finalised height, if any, is the indexed block.
  ghost predicate Permitted(env: Env, blocks: map<Hash, Block>, hashAt: map<nat, Hash>, finalized: Option<nat>, cand: Hash)
    requires Linked(HeadersOf(blocks))
  {
    finalized.Some? && finalized.value > 0 && BlockAt(blocks, hashAt, finalized.value).Some? ==>
      var a := AncestorAt(HeadersOf(blocks), cand, finalized.value);
      a.Some? ==> OnMain(env, blocks, hashAt, finalized.value, env.hashOf(blocks[a.value].header))
  }

  /** The finality check on the index itself: with blocks stored under their own hashes, a candidate
      passes exactly when nothing above genesis is finalised, the finalised height is not indexed to
      a stored block, the candidate has no stored ancestor there, or that ancestor is indexed. */
  lemma PermittedIff(env: Env, blocks: map<Hash, Block>, hashAt: map<nat, Hash>, finalized: Option<nat>, cand: Hash)
    requires Linked(HeadersOf(blocks)) && Keyed(env, blocks)
    ensures Permitted(env, blocks, hashAt, finalized, cand) <==>
            || finalized.None? || finalized.value == 0
            || finalized.value !in hashAt || hashAt[finalized.value] !in blocks
            || AncestorAt(HeadersOf(blocks), cand, finalized.value) == None
            || AncestorAt(HeadersOf(blocks), cand, finalized.value) == Some(hashAt[finalized.value])
  {
  }

  // Refuses a candidate whose stored ancestor at the finalised height is not the indexed block.
  method EnforceFinalizedOnCandidate(db: Db, env: Env, cand: Hash) returns (ok: bool)
    requires Linked(HeadersOf(db.blocks))
    ensures ok <==> Permitted(env, db.blocks, db.hashAt, db.finalized, cand)
  {
    if db.finalized.None? || db.finalized.value == 0 { return true; }
    var finH := db.finalized.value;
    if finH !in db.hashAt || db.hashAt[finH] !in db.blocks { return true; }
    var mainHash := env.hashOf(db.blocks[db.hashAt[finH]].header);
    var a := GetAncestorHashAtHeight(HeadersOf(db.blocks), cand, finH);
    if a.None? { return true; }
    return env.hashOf(db.blocks[a.value].header) == mainHash;
  }

  // ----- applying the new branch -----

  predicate AllStored(blocks: map<Hash, Block>, path: seq<Hash>) { forall i :: 0 <= i < |path| ==> path[i] in blocks }

  function BlocksAlong(blocks: map<Hash, Block>, path: seq<Hash>): (bs: seq<Block>)
    requires AllStored(blocks, path)
    ensures |bs| == |path| && forall i :: 0 <= i < |bs| ==> bs[i] == blocks[path[i]]
  {
    seq(|path|, i requires 0 <= i < |path| => blocks[path[i]])
  }

  // Applies the blocks of a path; stops where one is missing, does not match its header, or
  // does not apply.
  function ReplayPath(env: Env, headers: map<Hash, Header>, blocks: map<Hash, Block>, l: Ledger, path: seq<Hash>): Outcome
    decreases |path|
  {
    if path == [] then Outcome(l, true)
    else if path[0] !in blocks || !Matches(env, headers, blocks[path[0]]) then Outcome(l, false)
    else
      var o := DbTxs(l, blocks[path[0]].txs);
      if !o.ok then o else ReplayPath(env, headers, blocks, o.ledger, path[1..])
  }

  lemma {:induction false} ReplayPathIsReplay(env: Env, headers: map<Hash, Header>, blocks: map<Hash, Block>, l: Ledger, path: seq<Hash>)
    requires ReplayPath(env, headers, blocks, l, path).ok
    ensures AllStored(blocks, path) && forall i :: 0 <= i < |path| ==> Matches(env, headers, blocks[path[i]])
    ensures Replay(l, BlocksAlong(blocks, path)) == ReplayPath(env, headers, blocks, l, path)
    decreases |path|
  {
    if path != [] {
      var o := DbTxs(l, blocks[path[0]].txs);
      ReplayPathIsReplay(env, headers, blocks, o.ledger, path[1..]);
      assert path == [path[0]] + path[1..];
      assert BlocksAlong(blocks, path)[1..] == BlocksAlong(blocks, path[1..]);
    }
  }

  // The tip recorded after walking along a path of stored blocks.
  function TipAfter(blocks: map<Hash, Block>, tip: Option<Tip>, path: seq<Hash>): Option<Tip> {
    if path == [] || path[|path| - 1] !in blocks then tip
    else var h := path[|path| - 1]; Some(Tip(blocks[h].header.height, h))
  }

  // How many blocks of the path are applied before one is missing, does not match or fails.
  function Applied(env: Env, headers: map<Hash, Header>, blocks: map<Hash, Block>, l: Ledger, path: seq<Hash>): (n: nat)
    ensures n <= |path|
    decreases |path|
  {
    if path == [] || path[0] !in blocks || !Matches(env, headers, blocks[path[0]]) then 0
    else
      var o := DbTxs(l, blocks[path[0]].txs);
      if !o.ok then 0 else 1 + Applied(env, headers, blocks, o.ledger, path[1..])
  }

  lemma {:induction false} AppliedMatch(env: Env, headers: map<Hash, Header>, blocks: map<Hash, Block>, l: Ledger, path: seq<Hash>)
    ensures var n := Applied(env, headers, blocks, l, path);
            && (forall i :: 0 <= i < n ==> path[i] in blocks && Matches(env, headers, blocks[path[i]]))
            && (n == |path| <==> ReplayPath(env, headers, blocks, l, path).ok)
    decreases |path|
  {
    if path != [] && path[0] in blocks && Matches(env, headers, blocks[path[0]]) {
      var o := DbTxs(l, blocks[path[0]].txs);
      if o.ok {
        AppliedMatch(env, headers, blocks, o.ledger, path[1..]);
        forall i | 0 <= i < Applied(env, headers, blocks, l, path) ensures path[i] in blocks && Matches(env, headers, blocks[path[i]]) {
          if i > 0 { assert path[i] == path[1..][i - 1]; }
        }
      }
    }
  }

  /** Success or failure, the ledger is what the blocks applied so far left, and the tip is the last
      of them. */
  method ApplyPath(db: Db, env: Env, path: seq<Hash>) returns (ok: bool)
    modifies db`tip, db`bal, db`nonce
    ensures var o := ReplayPath(env, db.headers, db.blocks, old(LedgerOf(db)), path);
            LedgerOf(db) == o.ledger && ok == o.ok
    ensures db.tip == TipAfter(db.blocks, old(db.tip), path[..Applied(env, db.headers, db.blocks, old(LedgerOf(db)), path)])
  {
    for i := 0 to |path|
      invariant ReplayPath(env, db.headers, db.blocks, LedgerOf(db), path[i..])
             == ReplayPath(env, db.headers, db.blocks, old(LedgerOf(db)), path)
      invariant i + Applied(env, db.headers, db.blocks, LedgerOf(db), path[i..])
             == Applied(env, db.headers, db.blocks, old(LedgerOf(db)), path)
      invariant db.tip == TipAfter(db.blocks, old(db.tip), path[..i])
    {
      assert path[i..][1..] == path[i + 1..];
      var bh := path[i];
      if bh !in db.blocks { return false; }
      var b := db.blocks[bh];
      var err := BlockMatchesStoredHeader(db, env, b);
      if err.Some? { return false; }
      var applied := ApplyBlockTxs(db, b);
      if !applied { return false; }
      db.tip := Some(Tip(b.header.height, bh));
    }
    return true;
  }

  // The spends of the abandoned blocks, as far as they can be read.
  function Abandoned(blocks: map<Hash, Block>, hashAt: map<nat, Hash>, from: nat, to: nat): seq<Tx>
    decreases to + 1 - from
  {
    if from > to || BlockAt(blocks, hashAt, from).None? then []
    else Spends(BlockAt(blocks, hashAt, from).value.txs) + Abandoned(blocks, hashAt, from + 1, to)
  }

  function Spends(txs: seq<Tx>): seq<Tx> {
    if txs == [] then [] else (if txs[0].txType != Coinbase then [txs[0]] else []) + Spends(txs[1..])
  }

  /** Spends are kept one by one, in order, and coinbases dropped. */
  lemma {:induction false} SpendsLaw(a: seq<Tx>, b: seq<Tx>, t: Tx)
    ensures Spends(a + b) == Spends(a) + Spends(b)
    ensures Spends([t]) == if t.txType == "coinbase" then [] else [t]
    decreases |a|
  {
    assert [t][1..] == [];
    if a == [] {
      assert a + b == b;
    } else {
      SpendsLaw(a[1..], b, t);
      assert (a + b)[1..] == a[1..] + b;
    }
  }

  lemma {:induction false} SpendsCount(txs: seq<Tx>, t: Tx)
    ensures multiset(Spends(txs))[t] == if t.txType == "coinbase" then 0 else multiset(txs)[t]
    decreases |txs|
  {
    if txs != [] {
      SpendsCount(txs[1..], t);
      assert txs == [txs[0]] + txs[1..];
      assert multiset(txs) == multiset([txs[0]]) + multiset(txs[1..]);
      var head := if txs[0].txType != Coinbase then [txs[0]] else [];
      assert multiset(Spends(txs)) == multiset(head) + multiset(Spends(txs[1..]));
    }
  }

  // The indexed blocks from a height on, up to the first that cannot be read.
  ghost function Readable(blocks: map<Hash, Block>, hashAt: map<nat, Hash>, from: nat, to: nat): seq<Block>
    decreases to + 1 - from
  {
    if from > to || from !in hashAt || hashAt[from] !in blocks then []
    else [blocks[hashAt[from]]] + Readable(blocks, hashAt, from + 1, to)
  }

  lemma {:induction false} ReadableAt(blocks: map<Hash, Block>, hashAt: map<nat, Hash>, from: nat, last: nat, i: nat)
    ensures var bs := Readable(blocks, hashAt, from, last);
            && (i < |bs| ==> from + i <= last && from + i in hashAt && hashAt[from + i] in blocks && bs[i] == blocks[hashAt[from + i]])
            && (|bs| <= i && from + |bs| <= last ==> !(from + |bs| in hashAt && hashAt[from + |bs|] in blocks))
    decreases last + 1 - from
  {
    if from <= last && from in hashAt && hashAt[from] in blocks {
      ReadableAt(blocks, hashAt, from + 1, last, if i == 0 then 0 else i - 1);
    }
  }

  function AllTxs(bs: seq<Block>): seq<Tx> { if bs == [] then [] else bs[0].txs + AllTxs(bs[1..]) }

  /** What a reorganisation hands back: of the abandoned blocks that can be read, all transactions but
      the coinbases, in order and each as often as it occurs. */
  lemma {:induction false} AbandonedLaw(blocks: map<Hash, Block>, hashAt: map<nat, Hash>, from: nat, last: nat, t: Tx)
    ensures var txs := AllTxs(Readable(blocks, hashAt, from, last));
            && Abandoned(blocks, hashAt, from, last) == Spends(txs)
            && multiset(Abandoned(blocks, hashAt, from, last))[t] == if t.txType == "coinbase" then 0 else multiset(txs)[t]
    decreases last + 1 - from
  {
    var bs := Readable(blocks, hashAt, from, last);
    if bs != [] {
      AbandonedLaw(blocks, hashAt, from + 1, last, t);
      assert bs[1..] == Readable(blocks, hashAt, from + 1, last);
      SpendsLaw(bs[0].txs, AllTxs(bs[1..]), t);
    }
    SpendsCount(AllTxs(bs), t);
  }

  method CollectSpends(txs: seq<Tx>) returns (out: seq<Tx>)
    ensures out == Spends(txs)
  {
    out := [];
    for i := 0 to |txs|
      invariant out + Spends(txs[i..]) == Spends(txs)
    {
      assert txs[i..][1..] == txs[i + 1..];
      if txs[i].txType != Coinbase { out := out + [txs[i]]; }
    }
  }

  method CollectAbandoned(db: Db, from: nat, to: nat) returns (out: seq<Tx>)
    ensures out == Abandoned(db.blocks, db.hashAt, from, to)
  {
    out := [];
    var h := from;
    while h <= to
      invariant out + Abandoned(db.blocks, db.hashAt, h, to) == Abandoned(db.blocks, db.hashAt, from, to)
    {
      if h !in db.hashAt || db.hashAt[h] !in db.blocks { break; }
      var spends := CollectSpends(db.blocks[db.hashAt[h]].txs);
      out := out + spends;
      h := h + 1;
    }
  }

  // ----- the reorganisation -----

  // The header path above the fork point; none is needed if the head is not above it.
  ghost function PathAbove(headers: Store, head: Tip, forkH: nat): Option<seq<Hash>>
    requires Linked(headers)
  {
    if head.height > forkH then PathUp(headers, head.hash, forkH + 1) else Some([])
  }

  // The ledger rebuilt at the fork height.
  function Base(env: Env, c: Chain, snaps: seq<Snapshot>, forkH: nat): Outcome {
    var start := Start(snaps, env.allocs, forkH);
    ReplayMain(c.blocks, c.hashAt, start.ledger, start.height + 1, forkH)
  }

  // In `c` the ledger is that of the fork height, carried on along the header path to `head`.
  ghost predicate CarriedOn(env: Env, c: Chain, snaps: seq<Snapshot>, head: Tip, forkH: nat, path: seq<Hash>, oldTip: Option<Tip>)
    requires Linked(c.headers)
  {
    && PathAbove(c.headers, head, forkH) == Some(path)
    && Base(env, c, snaps, forkH).ok
    && ReplayPath(env, c.headers, c.blocks, Base(env, c, snaps, forkH).ledger, path) == Outcome(c.ledger, true)
    && c.tip == TipAfter(c.blocks, oldTip, path)
  }

  // Every step from this fork height goes through.
  ghost predicate CanCarryOn(env: Env, c: Chain, finalized: Option<nat>, snaps: seq<Snapshot>, head: Tip, forkH: nat)
    requires Linked(c.headers)
  {
    var base, path := Base(env, c, snaps, forkH), PathAbove(c.headers, head, forkH);
    && (finalized.Some? ==> finalized.value <= forkH)
    && base.ok && path.Some? && ReplayPath(env, c.headers, c.blocks, base.ledger, path.value).ok
  }

  // The blocks of the header path that are applied from this fork height.
  ghost function CarriedPart(env: Env, c: Chain, finalized: Option<nat>, snaps: seq<Snapshot>, head: Tip, forkH: nat): seq<Hash>
    requires Linked(c.headers)
  {
    var base, path := Base(env, c, snaps, forkH), PathAbove(c.headers, head, forkH);
    if (finalized.Some? && forkH < finalized.value) || !base.ok || path.None? then []
    else path.value[..Applied(env, c.headers, c.blocks, base.ledger, path.value)]
  }

  // The ledger left, whether or not every step goes through.
  ghost function CarriedLedger(env: Env, c: Chain, finalized: Option<nat>, snaps: seq<Snapshot>, head: Tip, forkH: nat): Ledger
    requires Linked(c.headers)
  {
    var base, path := Base(env, c, snaps, forkH), PathAbove(c.headers, head, forkH);
    if finalized.Some? && forkH < finalized.value then c.ledger
    else if !base.ok || path.None? then base.ledger
    else ReplayPath(env, c.headers, c.blocks, base.ledger, path.value).ledger
  }

  ghost function Carried(env: Env, c: Chain, finalized: Option<nat>, snaps: seq<Snapshot>, head: Tip, forkH: nat): Chain
    requires Linked(c.headers)
  {
    c.(tip := TipAfter(c.blocks, c.tip, CarriedPart(env, c, finalized, snaps, head, forkH)),
       ledger := CarriedLedger(env, c, finalized, snaps, head, forkH))
  }

  // The point where the way to `head` leaves the main chain.
  ghost predicate IsFork(env: Env, c: Chain, cur: Tip, head: Tip, fork: Tip)
    requires Linked(c.headers)
  {
    if cur.hash == "" then fork == Tip(0, "") else IsForkPoint(env, c.headers, c.blocks, c.hashAt, cur.height, head.hash, fork)
  }

  // Where a reorganisation towards `head` leaves the node: it left the main chain at `fork`,
  // not below the finalised height, and carried on from there.
  ghost predicate Reorganised(env: Env, c: Chain, finalized: Option<nat>, snaps: seq<Snapshot>, cur: Tip, head: Tip, fork: Tip, path: seq<Hash>, oldTip: Option<Tip>)
    requires Linked(c.headers)
  {
    && IsFork(env, c, cur, head, fork)
    && (finalized.Some? ==> finalized.value <= fork.height)
    && CarriedOn(env, c, snaps, head, fork.height, path, oldTip)
  }

  // Nothing stands in the way of a reorganisation towards `head`.
  ghost predicate CanReorg(env: Env, c: Chain, finalized: Option<nat>, snaps: seq<Snapshot>, cur: Tip, head: Tip)
    requires Linked(c.headers) && Linked(HeadersOf(c.blocks))
  {
    Departs(env, c, finalized, cur, head) && CanCarryOn(env, c, finalized, snaps, head, ForkOf(env, c, cur, head).height)
  }

  // There is only one fork point, and there is one.
  lemma ForkUnique(env: Env, c: Chain, cur: Tip, head: Tip, a: Tip, b: Tip)
    requires Linked(c.headers) && IsFork(env, c, cur, head, a) && IsFork(env, c, cur, head, b)
    ensures a == b
  {
  }

  lemma {:induction false} ForkBelow(env: Env, c: Chain, cur: Tip, head: Tip, k: nat)
    requires Linked(c.headers) && k <= cur.height && cur.hash != ""
    requires forall j :: k < j <= cur.height ==> !SharedAt(env, c.headers, c.blocks, c.hashAt, head.hash, j)
    ensures exists fork :: IsFork(env, c, cur, head, fork)
    decreases k
  {
    if k == 0 {
      assert IsFork(env, c, cur, head, Tip(0, ""));
    } else if SharedAt(env, c.headers, c.blocks, c.hashAt, head.hash, k) {
      assert IsFork(env, c, cur, head, Tip(k, AncestorAt(c.headers, head.hash, k).value));
    } else {
      ForkBelow(env, c, cur, head, k - 1);
    }
  }

  ghost function ForkOf(env: Env, c: Chain, cur: Tip, head: Tip): (fork: Tip)
    requires Linked(c.headers)
    ensures IsFork(env, c, cur, head, fork)
  {
    if cur.hash == "" then Tip(0, "")
    else
      ForkBelow(env, c, cur, head, cur.height);
      var fork :| IsFork(env, c, cur, head, fork);
      fork
  }

  // The attempt gets as far as a fork point.
  ghost predicate Departs(env: Env, c: Chain, finalized: Option<nat>, cur: Tip, head: Tip)
    requires Linked(c.headers) && Linked(HeadersOf(c.blocks))
  {
    && Permitted(env, c.blocks, c.hashAt, finalized, head.hash)
    && (cur.hash != "" ==> Meets(env, c.headers, c.blocks, c.hashAt, cur.height, head.hash))
  }

  // What an attempt towards `head` leaves, success or failure.
  ghost function Attempt(env: Env, c: Chain, finalized: Option<nat>, snaps: seq<Snapshot>, cur: Tip, head: Tip): Chain
    requires Linked(c.headers) && Linked(HeadersOf(c.blocks))
  {
    if Departs(env, c, finalized, cur, head) then Carried(env, c, finalized, snaps, head, ForkOf(env, c, cur, head).height) else c
  }

  // There is somewhere to go.
  predicate Elsewhere(tip: Option<Tip>, headerTip: Option<Tip>) {
    headerTip.Some? && headerTip.value.hash != "" && CurrentTip(tip).hash != headerTip.value.hash
  }

  ghost function Reorged(env: Env, c: Chain, finalized: Option<nat>, snaps: seq<Snapshot>, headerTip: Option<Tip>): Chain
    requires Linked(c.headers) && Linked(HeadersOf(c.blocks))
  {
    if Elsewhere(c.tip, headerTip) then Attempt(env, c, finalized, snaps, CurrentTip(c.tip), headerTip.value) else c
  }

  ghost predicate HeaderTipSound(db: Db)
    reads db
  {
    db.headerTip.Some? && db.headerTip.value.hash in db.headers ==>
      db.headers[db.headerTip.value.hash].height == db.headerTip.value.height
  }

  // The recorded tip, or height zero without a hash.
  function CurrentTip(tip: Option<Tip>): Tip { if tip.Some? then tip.value else Tip(0, "") }

  // Rebuild the ledger at the fork point and carry it on along the header path.
  method CarryOn(db: Db, env: Env, snaps: seq<Snapshot>, head: Tip, forkH: nat) returns (err: Option<string>, ghost path: seq<Hash>)
    requires Linked(db.headers) && (head.hash in db.headers ==> db.headers[head.hash].height == head.height)
    modifies db`tip, db`bal, db`nonce
    ensures err.None? <==> CanCarryOn(env, old(ChainOf(db)), db.finalized, snaps, head, forkH)
    ensures ChainOf(db) == Carried(env, old(ChainOf(db)), db.finalized, snaps, head, forkH)
    ensures err.None? ==> CarriedOn(env, ChainOf(db), snaps, head, forkH, path, old(db.tip))
  {
    path := [];
    var rebuilt := RebuildStateToHeight(db, snaps, env.allocs, forkH);
    if rebuilt.Err? { err := Some(rebuilt.error); return; }
    var up := HeaderPathFromTo(db, forkH + 1, head.height, head.hash);
    if up.Err? { err := Some(up.error); return; }
    path := up.value;
    ghost var l := LedgerOf(db);
    AppliedMatch(env, db.headers, db.blocks, l, path);
    var ok := ApplyPath(db, env, up.value);
    assert ok ==> path[..Applied(env, db.headers, db.blocks, l, path)] == path;
    err := if ok then None else Some("missing or invalid block");
  }

  // What an attempt towards `head` comes to: it succeeds exactly when nothing stands in the way.
  ghost predicate Attempted(
    env: Env, before: Chain, after: Chain, finalized: Option<nat>, snaps: seq<Snapshot>, cur: Tip, head: Tip,
    ok: bool, orphans: seq<Tx>, fork: Tip, path: seq<Hash>)
    requires Linked(before.headers) && Linked(HeadersOf(before.blocks)) && after.headers == before.headers
  {
    && (ok <==> CanReorg(env, before, finalized, snaps, cur, head))
    && (ok ==> Reorganised(env, after, finalized, snaps, cur, head, fork, path, before.tip))
    && (ok ==> orphans == Abandoned(before.blocks, before.hashAt, fork.height + 1, cur.height))
  }

  method ReorgTo(db: Db, env: Env, snaps: seq<Snapshot>, cur: Tip, head: Tip)
    returns (err: Option<string>, orphans: seq<Tx>, ghost fork: Tip, ghost path: seq<Hash>)
    requires Linked(db.headers) && (head.hash in db.headers ==> db.headers[head.hash].height == head.height)
    requires Linked(HeadersOf(db.blocks))
    modifies db`tip, db`bal, db`nonce
    ensures Attempted(env, old(ChainOf(db)), ChainOf(db), db.finalized, snaps, cur, head, err.None?, orphans, fork, path)
    ensures ChainOf(db) == Attempt(env, old(ChainOf(db)), db.finalized, snaps, cur, head)
  {
    orphans, fork, path := [], Tip(0, ""), [];
    ghost var c := ChainOf(db);
    var allowed := EnforceFinalizedOnCandidate(db, env, head.hash);
    if !allowed { err := Some("violates_finalized"); return; }
    var found := FindForkPoint(db, env, cur.height, cur.hash, head.hash);
    if found.Err? { err := Some(found.error); return; }
    fork := found.value;
    orphans := CollectAbandoned(db, found.value.height + 1, cur.height);
    err, path := CarryOn(db, env, snaps, head, found.value.height);
    ForkUnique(env, c, cur, head, ForkOf(env, c, cur, head), fork);
  }

  /** Without a header tip, or when already on it, nothing changes. Otherwise it succeeds exactly
      when the finalised block, the fork point, the rebuild and every block of the header path
      allow it; and success means the node left the main chain at the highest block shared with
      the header chain, which is not below the finalised height, and replayed the header path on
      top. Success or failure, only tip and ledger ever change, to what the blocks applied so far
      leave. */
  method ReorgToBestHeaderChain(db: Db, env: Env, snaps: seq<Snapshot>)
    returns (err: Option<string>, orphans: seq<Tx>, ghost fork: Tip, ghost path: seq<Hash>)
    requires Linked(db.headers) && Linked(HeadersOf(db.blocks)) && HeaderTipSound(db)
    modifies db`tip, db`bal, db`nonce
    ensures ChainOf(db) == old(ChainOf(db)).(tip := db.tip, ledger := LedgerOf(db))
    ensures ChainOf(db) == Reorged(env, old(ChainOf(db)), db.finalized, snaps, db.headerTip)
    ensures db.headerTip.None? || db.headerTip.value.hash == "" ==> err.Some?
    ensures db.headerTip.Some? && db.headerTip.value.hash != "" ==>
      var cur, head := CurrentTip(old(db.tip)), db.headerTip.value;
      if cur.hash == head.hash then err.None?
      else Attempted(env, old(ChainOf(db)), ChainOf(db), db.finalized, snaps, cur, head, err.None?, orphans, fork, path)
  {
    orphans, fork, path := [], Tip(0, ""), [];
    var cur := CurrentTip(db.tip);
    if db.headerTip.None? || db.headerTip.value.hash == "" { err := Some("no_header_tip"); return; }
    var head := db.headerTip.value;
    if cur.hash != "" && cur.hash == head.hash { err := None; return; }
    err, orphans, fork, path := ReorgTo(db, env, snaps, cur, head);
  }

  // ----- reorganising is replaying the header tip's ancestry -----

  // Heights 1 to n are indexed to stored blocks of that height.
  ghost predicate AllIndexed(blocks: map<Hash, Block>, hashAt: map<nat, Hash>, n: nat) {
    forall h :: 1 <= h <= n ==> h in hashAt && hashAt[h] in blocks && blocks[hashAt[h]].header.height == h
  }

  // Moreover each is the parent of the next.
  ghost predicate IndexLinked(blocks: map<Hash, Block>, hashAt: map<nat, Hash>, n: nat) {
    && AllIndexed(blocks, hashAt, n)
    && (forall h :: 2 <= h <= n ==> blocks[hashAt[h]].header.prev == hashAt[h - 1])
  }

  function Indexed(hashAt: map<nat, Hash>, n: nat): (p: seq<Hash>)
    requires forall h :: 1 <= h <= n ==> h in hashAt
    ensures |p| == n && forall i :: 0 <= i < n ==> p[i] == hashAt[i + 1]
  {
    seq(n, i requires 0 <= i < n => hashAt[i + 1])
  }

  // The header path hangs on the fork point, and its blocks carry the same links.
  ghost predicate HangsOn(blocks: map<Hash, Block>, hashAt: map<nat, Hash>, fork: Tip, path: seq<Hash>) {
    && AllStored(blocks, path)
    && (forall i :: 0 <= i < |path| ==> blocks[path[i]].header.height == fork.height + 1 + i)
    && (forall i :: 0 < i < |path| ==> blocks[path[i]].header.prev == path[i - 1])
    && (fork.height > 0 && path != [] ==> fork.height in hashAt && blocks[path[0]].header.prev == hashAt[fork.height])
  }

  // Any beginning of the path does, as far as its blocks are stored and match.
  lemma PartHangsOn(env: Env, c: Chain, cur: Tip, head: Tip, fork: Tip, path: seq<Hash>, part: seq<Hash>)
    requires Linked(c.headers) && Keyed(env, c.blocks) && IsFork(env, c, cur, head, fork)
    requires PathUp(c.headers, head.hash, fork.height + 1) == Some(path) && part <= path
    requires AllStored(c.blocks, part) && forall i :: 0 <= i < |part| ==> Matches(env, c.headers, c.blocks[part[i]])
    ensures HangsOn(c.blocks, c.hashAt, fork, part)
  {
    PathIsAncestry(c.headers, head.hash, fork.height + 1);
    forall i | 0 <= i < |part|
      ensures c.blocks[part[i]].header.height == fork.height + 1 + i
      ensures c.blocks[part[i]].header.prev == c.headers[part[i]].prev
      ensures i > 0 ==> c.headers[part[i]].prev == part[i - 1]
    {
      assert part[i] == path[i] && (i > 0 ==> part[i - 1] == path[i - 1]);
      assert Matches(env, c.headers, c.blocks[part[i]]);
    }
    if fork.height > 0 && part != [] {
      assert AncestorAt(c.headers, head.hash, fork.height + 1 + 0) == Some(path[0]);
      AncestorThrough(c.headers, head.hash, fork.height + 1, fork.height);
    }
  }

  lemma LinkedIsPath(blocks: map<Hash, Block>, hashAt: map<nat, Hash>, fork: Tip, path: seq<Hash>, p: seq<Hash>)
    requires Linked(HeadersOf(blocks)) && IndexLinked(blocks, hashAt, fork.height)
    requires HangsOn(blocks, hashAt, fork, path) && p == Indexed(hashAt, fork.height) + path && p != []
    ensures PathUp(HeadersOf(blocks), p[|p| - 1], 1) == Some(p)
  {
    var s := HeadersOf(blocks);
    forall i | 0 < i < |p| ensures s[p[i]].prev == p[i - 1] {
      if i < fork.height { assert blocks[hashAt[i + 1]].header.prev == hashAt[i]; }
    }
    PathUnique(s, p, 1);
  }

  lemma PathIsLinked(blocks: map<Hash, Block>, hashAt: map<nat, Hash>, n: nat, path: seq<Hash>, p: seq<Hash>)
    requires Linked(HeadersOf(blocks)) && AllIndexed(blocks, hashAt, n)
    requires p == Indexed(hashAt, n) + path && p != [] && PathUp(HeadersOf(blocks), p[|p| - 1], 1) == Some(p)
    ensures IndexLinked(blocks, hashAt, n)
  {
    var s := HeadersOf(blocks);
    PathIsAncestry(s, p[|p| - 1], 1);
    forall h | 2 <= h <= n ensures blocks[hashAt[h]].header.prev == hashAt[h - 1] {
      assert s[p[h - 1]].prev == p[h - 2];
    }
  }

  /** The blocks a reorganisation runs, indexed ones up to the fork point and then the header
      path, are the new tip's ancestry exactly when the index is linked up to the fork point. */
  lemma ReplayedBlocksAreAncestryIff(blocks: map<Hash, Block>, hashAt: map<nat, Hash>, fork: Tip, path: seq<Hash>)
    requires Linked(HeadersOf(blocks)) && AllIndexed(blocks, hashAt, fork.height)
    requires HangsOn(blocks, hashAt, fork, path) && (fork.height > 0 || path != [])
    ensures var p := Indexed(hashAt, fork.height) + path;
            PathUp(HeadersOf(blocks), p[|p| - 1], 1) == Some(p) <==> IndexLinked(blocks, hashAt, fork.height)
  {
    var p := Indexed(hashAt, fork.height) + path;
    if PathUp(HeadersOf(blocks), p[|p| - 1], 1) == Some(p) { PathIsLinked(blocks, hashAt, fork.height, path, p); }
    if IndexLinked(blocks, hashAt, fork.height) { LinkedIsPath(blocks, hashAt, fork, path, p); }
  }

  lemma ReplayMainThenPath(env: Env, c: Chain, l: Ledger, n: nat, path: seq<Hash>)
    requires AllIndexed(c.blocks, c.hashAt, n) && AllStored(c.blocks, path)
    ensures var o := ReplayMain(c.blocks, c.hashAt, l, 1, n);
            Replay(l, BlocksAlong(c.blocks, Indexed(c.hashAt, n) + path))
            == if o.ok then Replay(o.ledger, BlocksAlong(c.blocks, path)) else o
  {
    var main := BlocksAlong(c.blocks, Indexed(c.hashAt, n));
    forall i | 0 <= i < |main| ensures BlockAt(c.blocks, c.hashAt, 1 + i) == Some(main[i]) {
      assert 1 <= i + 1 <= n;
    }
    ReplayMainIsReplay(c.blocks, c.hashAt, l, 1, main);
    assert BlocksAlong(c.blocks, Indexed(c.hashAt, n) + path) == main + BlocksAlong(c.blocks, path);
    ReplayConcat(l, main, BlocksAlong(c.blocks, path));
  }

  // The new tip's ancestry: the indexed blocks up to the fork point, then the header path.
  lemma NewAncestry(env: Env, c: Chain, cur: Tip, head: Tip, fork: Tip, path: seq<Hash>)
    requires Linked(c.headers) && Linked(HeadersOf(c.blocks)) && Keyed(env, c.blocks)
    requires IsFork(env, c, cur, head, fork)
    requires head.hash in c.headers && c.headers[head.hash].height == head.height > 0
    requires PathAbove(c.headers, head, fork.height) == Some(path)
    requires AllStored(c.blocks, path) && forall i :: 0 <= i < |path| ==> Matches(env, c.headers, c.blocks[path[i]])
    requires IndexLinked(c.blocks, c.hashAt, fork.height)
    ensures PathUp(HeadersOf(c.blocks), head.hash, 1) == Some(Indexed(c.hashAt, fork.height) + path)
    ensures path != [] ==> path[|path| - 1] == head.hash && c.blocks[head.hash].header.height == head.height
  {
    if head.height > fork.height {
      PartHangsOn(env, c, cur, head, fork, path, path);
      PathIsAncestry(c.headers, head.hash, fork.height + 1);
    } else {
      assert fork == head;
    }
    ReplayedBlocksAreAncestryIff(c.blocks, c.hashAt, fork, path);
  }

  // The replay from genesis along indexed blocks and header path ends in the node's ledger.
  lemma CarriedOnIsReplay(env: Env, c: Chain, snaps: seq<Snapshot>, head: Tip, forkH: nat, path: seq<Hash>, oldTip: Option<Tip>)
    requires Linked(c.headers) && CarriedOn(env, c, snaps, head, forkH, path, oldTip)
    requires AllIndexed(c.blocks, c.hashAt, forkH)
    requires forall s :: s in snaps && s.height <= forkH ==> Truthful(c.blocks, c.hashAt, env.allocs, s)
    ensures AllStored(c.blocks, path) && forall i :: 0 <= i < |path| ==> Matches(env, c.headers, c.blocks[path[i]])
    ensures AllStored(c.blocks, Indexed(c.hashAt, forkH) + path)
    ensures Replay(Genesis(env.allocs), BlocksAlong(c.blocks, Indexed(c.hashAt, forkH) + path)) == Outcome(c.ledger, true)
  {
    SnapshotChoiceIrrelevant(c.blocks, c.hashAt, env.allocs, snaps, forkH);
    var base := ReplayMain(c.blocks, c.hashAt, Genesis(env.allocs), 1, forkH);
    ReplayPathIsReplay(env, c.headers, c.blocks, base.ledger, path);
    ReplayMainThenPath(env, c, Genesis(env.allocs), forkH, path);
  }

  /** Reorganising equals replaying: with a linked index and truthful snapshots up to the fork
      point, whichever of them was picked, the ledger after a successful reorganisation is
      exactly the replay from genesis along the header tip's ancestry. That ancestry keeps the
      indexed block at every height up to the fork point, which is not below the finalised height.
      If the header tip is above the fork point it is the new tip; otherwise the tip stays. */
  lemma ReorgEqualsReplay(env: Env, c: Chain, finalized: Option<nat>, snaps: seq<Snapshot>, cur: Tip, head: Tip, fork: Tip, path: seq<Hash>, oldTip: Option<Tip>)
    requires Linked(c.headers) && Linked(HeadersOf(c.blocks)) && Keyed(env, c.blocks)
    requires Reorganised(env, c, finalized, snaps, cur, head, fork, path, oldTip)
    requires head.hash in c.headers && c.headers[head.hash].height == head.height > 0
    requires IndexLinked(c.blocks, c.hashAt, fork.height)
    requires forall s :: s in snaps && s.height <= fork.height ==> Truthful(c.blocks, c.hashAt, env.allocs, s)
    ensures var p := PathUp(HeadersOf(c.blocks), head.hash, 1);
            && p.Some?
            && AllStored(c.blocks, p.value)
            && Replay(Genesis(env.allocs), BlocksAlong(c.blocks, p.value)) == Outcome(c.ledger, true)
            && (forall h :: 1 <= h <= fork.height ==> h <= |p.value| && p.value[h - 1] == c.hashAt[h])
    ensures finalized.Some? ==> finalized.value <= fork.height
    ensures c.tip == if head.height > fork.height then Some(head) else oldTip
  {
    CarriedOnIsReplay(env, c, snaps, head, fork.height, path, oldTip);
    NewAncestry(env, c, cur, head, fork, path);
  }

  // ----- the fork point is the last common ancestor -----

  /** Below the fork point everything is shared: the header chain's ancestor at every height is
      the block indexed there. (Above it, up to the current tip, nothing is: IsForkPoint.) */
  lemma {:induction false} BelowForkPointShared(
    env: Env, headers: Store, blocks: map<Hash, Block>, hashAt: map<nat, Hash>, curH: nat, head: Hash, fork: Tip, h: nat)
    requires CollisionFree(env) && Keyed(env, blocks) && Linked(headers)
    requires forall k :: k in headers ==> env.hashOf(headers[k]) == k
    requires IsForkPoint(env, headers, blocks, hashAt, curH, head, fork) && IndexLinked(blocks, hashAt, fork.height)
    requires 1 <= h <= fork.height && AncestorAt(headers, head, h).Some?
    ensures AncestorAt(headers, head, h) == Some(hashAt[h])
    decreases fork.height - h
  {
    if h < fork.height {
      AncestorThrough(headers, head, fork.height, h + 1);
      AncestorThrough(headers, head, fork.height, h);
      AncestorBetween(headers, fork.hash, h);
      BelowForkPointShared(env, headers, blocks, hashAt, curH, head, fork, h + 1);
      var a := hashAt[h + 1];
      AncestorThrough(headers, head, h + 1, h);
      assert headers[a] == blocks[a].header by { assert env.hashOf(headers[a]) == env.hashOf(blocks[a].header); }
    }
  }

  // A header chain that reaches a height passes the one above it.
  lemma {:induction false} AncestorBetween(s: Store, tip: Hash, h: nat)
    requires Linked(s) && AncestorAt(s, tip, h).Some? && tip in s && h < s[tip].height
    ensures AncestorAt(s, tip, h + 1).Some?
    decreases Rank(s, tip)
  {
    if h + 1 < s[tip].height { AncestorBetween(s, s[tip].prev, h); }
  }
}

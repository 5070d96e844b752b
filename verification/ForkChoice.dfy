/** Switching the main chain to a new tip (core/node/forkchoice.go). */
module ForkChoice {
  import opened Wrappers
  import opened ChainTypes
  import opened Storage
  import opened StateReplay
  import opened NodeTypes

  datatype SwitchError = MissingGenesis | MissingBlock | NotReached | AnchorMismatch

  // ----- walking back by parent pointers, whatever the stored heights say -----

  function Back(blocks: map<Hash, Block>, h: Hash, n: nat): Option<Hash>
    decreases n
  {
    if n == 0 then Some(h)
    else if h in blocks then Back(blocks, blocks[h].header.prev, n - 1)
    else None
  }

  function PathDown(blocks: map<Hash, Block>, h: Hash, n: nat): (p: seq<Hash>)
    requires Back(blocks, h, n).Some?
    ensures |p| == n + 1 && p[n] == Back(blocks, h, n).value
    decreases n
  {
    if n == 0 then [h] else [h] + PathDown(blocks, blocks[h].header.prev, n - 1)
  }

  // The stored anchor, or the indexed genesis block when none is stored.
  function AnchorOf(c: Chain): Option<Tip> {
    if c.anchor.Some? then c.anchor
    else if BlockAt(c.blocks, c.hashAt, 0).Some? then Some(Tip(0, c.hashAt[0]))
    else None
  }

  // The hashes from the new tip down to the anchor, if the new chain has the anchor in it.
  // A tip of height zero below the anchor is let through when it is the anchor's own hash.
  function SwitchPath(blocks: map<Hash, Block>, newTip: Tip, fin: Tip): Option<seq<Hash>> {
    if newTip.height < fin.height then
      if newTip.height == 0 && newTip.hash in blocks && newTip.hash == fin.hash then Some([newTip.hash]) else None
    else if Back(blocks, newTip.hash, newTip.height - fin.height) == Some(fin.hash)
    then Some(PathDown(blocks, newTip.hash, newTip.height - fin.height))
    else None
  }

  // The descending path written into the index, its last entry at height `from`.
  function Rewritten(hashAt: map<nat, Hash>, from: nat, down: seq<Hash>): map<nat, Hash> {
    if down == [] then hashAt else Rewritten(hashAt, from, down[1..])[from + |down| - 1 := down[0]]
  }

  /** Heights from `from` on hold the path, lowest first; every other height is as it was. */
  lemma {:induction false} RewrittenAt(hashAt: map<nat, Hash>, from: nat, down: seq<Hash>, h: nat)
    ensures h in Rewritten(hashAt, from, down) <==> h in hashAt || from <= h < from + |down|
    ensures from <= h < from + |down| ==> Rewritten(hashAt, from, down)[h] == down[|down| - 1 - (h - from)]
    ensures h in hashAt && !(from <= h < from + |down|) ==> Rewritten(hashAt, from, down)[h] == hashAt[h]
  {
    if down != [] { RewrittenAt(hashAt, from, down[1..], h); }
  }

  function SwitchTo(env: Env, c: Chain, snaps: seq<Snapshot>, newTip: Tip, fin: Tip, down: seq<Hash>): Chain {
    var hashAt := Rewritten(c.hashAt, fin.height, down);
    c.(hashAt := hashAt, tip := Some(newTip),
       ledger := Rebuilt(c.blocks, hashAt, snaps, env.allocs, newTip.height).ledger)
  }

  // The whole switch: none when it is refused.
  function Switch(env: Env, c: Chain, snaps: seq<Snapshot>, newTip: Tip): Option<Chain> {
    match AnchorOf(c)
    case None => None
    case Some(fin) =>
      match SwitchPath(c.blocks, newTip, fin)
      case None => None
      case Some(down) => Some(SwitchTo(env, c, snaps, newTip, fin, down))
  }

  /** All or nothing for index and tip, from any index contents: on success the index from the
      anchor's height to the new tip and the tip are those of the new chain, and the ledger is
      what the rebuild left, complete or not; on failure nothing has changed. A block is
      reported missing only if the walk back really breaks. */
  method TrySwitchMainChain(db: Db, env: Env, snaps: seq<Snapshot>, newTipHash: Hash, newTipHeight: nat)
    returns (err: Option<SwitchError>)
    modifies db`hashAt, db`tip, db`bal, db`nonce
    ensures var r := Switch(env, old(ChainOf(db)), snaps, Tip(newTipHeight, newTipHash));
            err.None? == r.Some? && ChainOf(db) == if r.Some? then r.value else old(ChainOf(db))
    ensures err == Some(MissingBlock) ==>
      var fin := AnchorOf(old(ChainOf(db)));
      && fin.Some?
      && if newTipHeight < fin.value.height then newTipHash !in db.blocks
         else Back(db.blocks, newTipHash, newTipHeight - fin.value.height).None?
  {
    var fin := ReadAnchor(db);
    if fin.None? { return Some(MissingGenesis); }
    var path, e := CollectPath(db, newTipHash, newTipHeight, fin.value.height);
    if e.Some? { return e; }
    if path[|path| - 1] != fin.value.hash { return Some(AnchorMismatch); }
    Follow(db, env, snaps, Tip(newTipHeight, newTipHash), fin.value, path);
    return None;
  }

  method ReadAnchor(db: Db) returns (fin: Option<Tip>)
    ensures fin == AnchorOf(ChainOf(db))
  {
    if db.anchor.Some? { return db.anchor; }
    if 0 !in db.hashAt || db.hashAt[0] !in db.blocks { return None; }
    return Some(Tip(0, db.hashAt[0]));
  }

  // Rewrite the index, move the tip, and rebuild; whether the rebuild succeeds is not looked at.
  method Follow(db: Db, env: Env, snaps: seq<Snapshot>, tip: Tip, fin: Tip, path: seq<Hash>)
    modifies db`hashAt, db`tip, db`bal, db`nonce
    ensures ChainOf(db) == SwitchTo(env, old(ChainOf(db)), snaps, tip, fin, path)
  {
    WritePath(db, fin.height, path);
    db.tip := Some(tip);
    var _ := RebuildStateFromFinalized(db, snaps, env.allocs);
  }

  method CollectPath(db: Db, newTipHash: Hash, newTipHeight: nat, finH: nat)
    returns (path: seq<Hash>, err: Option<SwitchError>)
    ensures err.None? ==> path != []
    ensures newTipHeight < finH && err.None? ==> newTipHeight == 0 && newTipHash in db.blocks && path == [newTipHash]
    ensures newTipHeight < finH && err.Some? ==> newTipHeight > 0 || newTipHash !in db.blocks
    ensures newTipHeight >= finH ==> err.None? == Back(db.blocks, newTipHash, newTipHeight - finH).Some?
    ensures newTipHeight >= finH && err.None? ==> path == PathDown(db.blocks, newTipHash, newTipHeight - finH)
    ensures newTipHeight < finH && err == Some(MissingBlock) ==> newTipHash !in db.blocks
  {
    path := [];
    var h, curHeight := newTipHash, newTipHeight;
    while true
      invariant newTipHeight < finH ==> path == [] && h == newTipHash && curHeight == newTipHeight
      invariant newTipHeight >= finH ==> curHeight >= finH
      invariant newTipHeight >= finH ==>
        Back(db.blocks, h, curHeight - finH) == Back(db.blocks, newTipHash, newTipHeight - finH)
      invariant newTipHeight >= finH && Back(db.blocks, h, curHeight - finH).Some? ==>
        path + PathDown(db.blocks, h, curHeight - finH) == PathDown(db.blocks, newTipHash, newTipHeight - finH)
      decreases curHeight
    {
      path := path + [h];
      if curHeight == finH { break; }
      if h !in db.blocks { return path, Some(MissingBlock); }
      h := db.blocks[h].header.prev;
      if curHeight == 0 { break; }
      curHeight := curHeight - 1;
      if curHeight < finH { return path, Some(NotReached); }
    }
    return path, None;
  }

  method WritePath(db: Db, finH: nat, path: seq<Hash>)
    modifies db`hashAt
    ensures db.hashAt == Rewritten(old(db.hashAt), finH, path)
  {
    var i := |path| - 1;
    while i >= 0
      invariant -1 <= i < |path|
      invariant db.hashAt == Rewritten(old(db.hashAt), finH, path[i + 1..])
    {
      var height := finH + (|path| - 1 - i);
      db.hashAt := db.hashAt[height := path[i]];
      assert path[i..][1..] == path[i + 1..];
      i := i - 1;
    }
    assert path[0..] == path;
  }
}

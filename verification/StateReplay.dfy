/** Rebuilding the ledger from a snapshot and the main-chain index
    (core/node/reorg.go and rebuildStateFromFinalized in core/node/state_apply.go). */
module StateReplay {
  import opened Wrappers
  import opened ChainTypes
  import opened LedgerSpec
  import opened Storage
  import opened StateApply

  datatype Snapshot = Snapshot(height: nat, ledger: Ledger)

  datatype Allocation = Allocation(address: Id, amount: nat)

  // ----- where a rebuild starts -----

  // The highest snapshot at or below the target; the later one in the list on a tie.
  function Pick(snaps: seq<Snapshot>, target: nat): Option<Snapshot> {
    if snaps == [] then None
    else
      var best, s := Pick(snaps[..|snaps| - 1], target), snaps[|snaps| - 1];
      if s.height <= target && (best.None? || s.height >= best.value.height) then Some(s) else best
  }

  lemma {:induction false} PickIsHighest(snaps: seq<Snapshot>, target: nat)
    ensures Pick(snaps, target).None? <==> forall s :: s in snaps ==> s.height > target
    ensures Pick(snaps, target).Some? ==>
      var best := Pick(snaps, target).value;
      best in snaps && best.height <= target && forall s :: s in snaps && s.height <= target ==> s.height <= best.height
  {
    if snaps != [] {
      PickIsHighest(snaps[..|snaps| - 1], target);
      assert snaps == snaps[..|snaps| - 1] + [snaps[|snaps| - 1]];
    }
  }

  /** And of several of that height the one listed last. */
  lemma {:induction false} PickIsLast(snaps: seq<Snapshot>, target: nat, i: nat)
    requires i < |snaps| && snaps[i].height <= target
    requires forall j :: 0 <= j < |snaps| && snaps[j].height <= target ==> snaps[j].height <= snaps[i].height
    requires forall j :: i < j < |snaps| ==> snaps[j].height != snaps[i].height
    ensures Pick(snaps, target) == Some(snaps[i])
    decreases |snaps|
  {
    var n := |snaps| - 1;
    var front := snaps[..n];
    PickIsHighest(front, target);
    if i < n {
      PickIsLast(front, target, i);
    } else {
      assert forall s :: s in front && s.height <= target ==> s.height <= snaps[i].height by {
        forall s | s in front && s.height <= target ensures s.height <= snaps[i].height {
          var j :| 0 <= j < |front| && front[j] == s;
          assert snaps[j] == s;
        }
      }
    }
  }

  // Genesis balances, each address set in turn.
  function Genesis(allocs: seq<Allocation>): Ledger {
    if allocs == [] then Ledger(map[], map[])
    else
      var l, a := Genesis(allocs[..|allocs| - 1]), allocs[|allocs| - 1];
      l.(bal := l.bal[a.address := a.amount])
  }

  // Genesis balances, each added to what its address already holds.
  function Funded(l: Ledger, allocs: seq<Allocation>): Ledger {
    if allocs == [] then l
    else
      var l', a := Funded(l, allocs[..|allocs| - 1]), allocs[|allocs| - 1];
      l'.(bal := Credit(l'.bal, a.address, a.amount))
  }

  predicate DistinctAddresses(allocs: seq<Allocation>) {
    forall i, j :: 0 <= i < j < |allocs| ==> allocs[i].address != allocs[j].address
  }

  /** The two ways the rebuild paths load genesis agree when no address is listed twice. */
  lemma {:induction false} GenesisWaysAgree(allocs: seq<Allocation>)
    requires DistinctAddresses(allocs)
    ensures Funded(Ledger(map[], map[]), allocs) == Genesis(allocs)
    ensures forall id :: id in Genesis(allocs).bal ==> exists i :: 0 <= i < |allocs| && allocs[i].address == id
  {
    if allocs != [] {
      var n := |allocs| - 1;
      GenesisWaysAgree(allocs[..n]);
      var before := Genesis(allocs[..n]).bal;
      forall id | id in before ensures id != allocs[n].address {
        var i :| 0 <= i < n && allocs[..n][i].address == id;
        assert allocs[i].address == id;
      }
      forall id | id in Genesis(allocs).bal ensures exists i :: 0 <= i < |allocs| && allocs[i].address == id {
        if id in before {
          var i :| 0 <= i < n && allocs[..n][i].address == id;
          assert allocs[i].address == id;
        } else {
          assert allocs[n].address == id;
        }
      }
    }
  }

  // All that is allocated to this address.
  function Allocated(allocs: seq<Allocation>, id: Id): nat {
    if allocs == [] then 0 else (if allocs[0].address == id then allocs[0].amount else 0) + Allocated(allocs[1..], id)
  }

  lemma {:induction false} AllocatedLast(allocs: seq<Allocation>, id: Id)
    requires allocs != []
    ensures var n := |allocs| - 1;
            Allocated(allocs, id) == Allocated(allocs[..n], id) + if allocs[n].address == id then allocs[n].amount else 0
    decreases |allocs|
  {
    var n := |allocs| - 1;
    if n > 0 {
      AllocatedLast(allocs[1..], id);
      assert allocs[..n][1..] == allocs[1..][..n - 1];
    }
  }

  /** Funding adds to every balance what is allocated to it, and touches no nonce. */
  lemma {:induction false} FundedReads(l: Ledger, allocs: seq<Allocation>, id: Id)
    ensures Balance(Funded(l, allocs).bal, id) == Balance(l.bal, id) + Allocated(allocs, id)
    ensures Funded(l, allocs).nonce == l.nonce
    decreases |allocs|
  {
    if allocs != [] {
      FundedReads(l, allocs[..|allocs| - 1], id);
      AllocatedLast(allocs, id);
    }
  }

  /** Genesis holds what is allocated, if no address is listed twice, and no nonce. */
  lemma GenesisReads(allocs: seq<Allocation>, id: Id)
    requires DistinctAddresses(allocs)
    ensures Balance(Genesis(allocs).bal, id) == Allocated(allocs, id) && Genesis(allocs).nonce == map[]
  {
    GenesisWaysAgree(allocs);
    FundedReads(Ledger(map[], map[]), allocs, id);
  }

  function Start(snaps: seq<Snapshot>, allocs: seq<Allocation>, target: nat): Snapshot {
    match Pick(snaps, target) case Some(s) => s case None => Snapshot(0, Genesis(allocs))
  }

  // ----- replaying the height index -----

  function BlockAt(blocks: map<Hash, Block>, hashAt: map<nat, Hash>, h: nat): Option<Block> {
    if h in hashAt && hashAt[h] in blocks then Some(blocks[hashAt[h]]) else None
  }

  // Heights `from` to `to`; stops where a block is missing or does not apply.
  function ReplayMain(blocks: map<Hash, Block>, hashAt: map<nat, Hash>, l: Ledger, from: nat, to: nat): Outcome
    decreases to + 1 - from
  {
    if from > to then Outcome(l, true)
    else
      match BlockAt(blocks, hashAt, from)
      case None => Outcome(l, false)
      case Some(b) =>
        var o := DbTxs(l, b.txs);
        if !o.ok then o else ReplayMain(blocks, hashAt, o.ledger, from + 1, to)
  }

  lemma {:induction false} ReplayMainSplit(blocks: map<Hash, Block>, hashAt: map<nat, Hash>, l: Ledger, from: nat, mid: nat, to: nat)
    requires from <= mid + 1 && mid <= to
    ensures var o := ReplayMain(blocks, hashAt, l, from, mid);
            ReplayMain(blocks, hashAt, l, from, to) == if o.ok then ReplayMain(blocks, hashAt, o.ledger, mid + 1, to) else o
    decreases mid + 1 - from
  {
    if from <= mid && BlockAt(blocks, hashAt, from).Some? {
      var o := DbTxs(l, BlockAt(blocks, hashAt, from).value.txs);
      if o.ok { ReplayMainSplit(blocks, hashAt, o.ledger, from + 1, mid, to); }
    }
  }

  lemma {:induction false} ReplayMainIsReplay(blocks: map<Hash, Block>, hashAt: map<nat, Hash>, l: Ledger, from: nat, bs: seq<Block>)
    requires forall i :: 0 <= i < |bs| ==> BlockAt(blocks, hashAt, from + i) == Some(bs[i])
    ensures from + |bs| > 0 ==> ReplayMain(blocks, hashAt, l, from, from + |bs| - 1) == Replay(l, bs)
    decreases |bs|
  {
    if bs != [] {
      assert BlockAt(blocks, hashAt, from + 0) == Some(bs[0]);
      forall i | 0 <= i < |bs[1..]| ensures BlockAt(blocks, hashAt, from + 1 + i) == Some(bs[1..][i]) {
        assert BlockAt(blocks, hashAt, from + (i + 1)) == Some(bs[i + 1]);
      }
      var o := DbTxs(l, bs[0].txs);
      if o.ok { ReplayMainIsReplay(blocks, hashAt, o.ledger, from + 1, bs[1..]); }
    }
  }

  // ----- snapshots -----

  // The snapshot is what replaying the indexed chain from genesis to its height gives.
  ghost predicate Truthful(blocks: map<Hash, Block>, hashAt: map<nat, Hash>, allocs: seq<Allocation>, s: Snapshot) {
    ReplayMain(blocks, hashAt, Genesis(allocs), 1, s.height) == Outcome(s.ledger, true)
  }

  /** Whichever truthful snapshot is picked, the rebuild ends where a replay from genesis does. */
  lemma SnapshotChoiceIrrelevant(
    blocks: map<Hash, Block>, hashAt: map<nat, Hash>, allocs: seq<Allocation>, snaps: seq<Snapshot>, target: nat)
    requires forall s :: s in snaps && s.height <= target ==> Truthful(blocks, hashAt, allocs, s)
    ensures var start := Start(snaps, allocs, target);
            ReplayMain(blocks, hashAt, start.ledger, start.height + 1, target)
            == ReplayMain(blocks, hashAt, Genesis(allocs), 1, target)
  {
    PickIsHighest(snaps, target);
    if Pick(snaps, target).Some? {
      var s := Pick(snaps, target).value;
      ReplayMainSplit(blocks, hashAt, Genesis(allocs), 1, s.height, target);
    }
  }

  // ----- the rebuilds -----

  method PickSnapshot(snaps: seq<Snapshot>, target: nat) returns (best: Option<Snapshot>)
    ensures best == Pick(snaps, target)
  {
    best := None;
    var bestH := 0;
    for i := 0 to |snaps|
      invariant best == Pick(snaps[..i], target)
      invariant bestH == if best.Some? then best.value.height else 0
    {
      assert snaps[..i + 1][..i] == snaps[..i];
      if snaps[i].height <= target && snaps[i].height >= bestH {
        bestH := snaps[i].height;
        best := Some(snaps[i]);
      }
    }
    assert snaps[..|snaps|] == snaps;
  }

  method ReplayIndex(db: Db, from: nat, to: nat) returns (ok: bool)
    modifies db`bal, db`nonce
    ensures var o := ReplayMain(db.blocks, db.hashAt, old(LedgerOf(db)), from, to);
            LedgerOf(db) == o.ledger && ok == o.ok
  {
    var h := from;
    while h <= to
      invariant ReplayMain(db.blocks, db.hashAt, LedgerOf(db), h, to)
             == ReplayMain(db.blocks, db.hashAt, old(LedgerOf(db)), from, to)
    {
      if h !in db.hashAt || db.hashAt[h] !in db.blocks { return false; }
      ok := ApplyBlockTxs(db, db.blocks[db.hashAt[h]]);
      if !ok { return; }
      h := h + 1;
    }
    return true;
  }

  /** Wipes the ledger, loads the best snapshot at or below the target (or genesis), and
      replays the indexed blocks above it. */
  method ApplyStateUpTo(db: Db, snaps: seq<Snapshot>, allocs: seq<Allocation>, target: nat) returns (ok: bool)
    modifies db`bal, db`nonce
    ensures var start := Start(snaps, allocs, target);
            var o := ReplayMain(db.blocks, db.hashAt, start.ledger, start.height + 1, target);
            LedgerOf(db) == o.ledger && ok == o.ok
  {
    var best := PickSnapshot(snaps, target);
    var bestH := 0;
    db.bal, db.nonce := map[], map[];
    if best.Some? {
      bestH := best.value.height;
      db.bal, db.nonce := best.value.ledger.bal, best.value.ledger.nonce;
    } else {
      for i := 0 to |allocs|
        invariant LedgerOf(db) == Genesis(allocs[..i])
      {
        assert allocs[..i + 1][..i] == allocs[..i];
        SetBalance(db, allocs[i].address, allocs[i].amount);
      }
      assert allocs[..|allocs|] == allocs;
    }
    ok := ReplayIndex(db, bestH + 1, target);
  }

  // Refuses targets below the finalised height.
  method RebuildStateToHeight(db: Db, snaps: seq<Snapshot>, allocs: seq<Allocation>, target: nat) returns (r: Result<(), string>)
    modifies db`bal, db`nonce
    ensures db.finalized.Some? && target < db.finalized.value ==> r.Err? && LedgerOf(db) == old(LedgerOf(db))
    ensures !(db.finalized.Some? && target < db.finalized.value) ==>
      var start := Start(snaps, allocs, target);
      var o := ReplayMain(db.blocks, db.hashAt, start.ledger, start.height + 1, target);
      LedgerOf(db) == o.ledger && r.Ok? == o.ok
  {
    if db.finalized.Some? && db.finalized.value > 0 && target < db.finalized.value { return Err("below_finalized"); }
    var ok := ApplyStateUpTo(db, snaps, allocs, target);
    return if ok then Ok(()) else Err("replay_failed");
  }

  // ----- the rebuild after a main-chain switch -----

  // Restoring goes through SetBalance, which clamps.
  function Clamped(m: Balances): Balances { map id | id in m :: if m[id] < 0 then 0 else m[id] }

  lemma ClampedReads(m: Balances, id: Id)
    ensures Balance(Clamped(m), id) == if Balance(m, id) < 0 then 0 else Balance(m, id)
  {
  }

  // The last snapshot in the list, whatever its height.
  function LastStart(snaps: seq<Snapshot>, allocs: seq<Allocation>): Snapshot {
    if snaps != [] && snaps[|snaps| - 1].height > 0
    then var s := snaps[|snaps| - 1]; Snapshot(s.height, Ledger(Clamped(s.ledger.bal), s.ledger.nonce))
    else Snapshot(0, Funded(Ledger(map[], map[]), allocs))
  }

  function Rebuilt(blocks: map<Hash, Block>, hashAt: map<nat, Hash>, snaps: seq<Snapshot>, allocs: seq<Allocation>, tipH: nat): Outcome {
    var start := LastStart(snaps, allocs);
    ReplayMain(blocks, hashAt, start.ledger, start.height + 1, tipH)
  }

  // Without a recorded tip nothing is replayed.
  method RebuildStateFromFinalized(db: Db, snaps: seq<Snapshot>, allocs: seq<Allocation>) returns (ok: bool)
    modifies db`bal, db`nonce
    ensures var o := if db.tip.None? then Outcome(LastStart(snaps, allocs).ledger, true)
                     else Rebuilt(db.blocks, db.hashAt, snaps, allocs, db.tip.value.height);
            LedgerOf(db) == o.ledger && ok == o.ok
  {
    var snapHeight := RestoreLast(db, snaps, allocs);
    if db.tip.None? { return true; }
    ok := ReplayIndex(db, snapHeight + 1, db.tip.value.height);
  }

  method RestoreLast(db: Db, snaps: seq<Snapshot>, allocs: seq<Allocation>) returns (snapHeight: nat)
    modifies db`bal, db`nonce
    ensures LastStart(snaps, allocs) == Snapshot(snapHeight, LedgerOf(db))
  {
    snapHeight := 0;
    if |snaps| > 0 {
      var s := snaps[|snaps| - 1];
      db.bal, db.nonce := Clamped(s.ledger.bal), s.ledger.nonce;
      snapHeight := s.height;
    }
    if snapHeight == 0 {
      db.bal, db.nonce := map[], map[];
      for i := 0 to |allocs|
        invariant LedgerOf(db) == Funded(Ledger(map[], map[]), allocs[..i])
        invariant forall id :: id in db.bal ==> db.bal[id] >= 0
      {
        assert allocs[..i + 1][..i] == allocs[..i];
        var _ := AddBalance(db, allocs[i].address, allocs[i].amount);
      }
      assert allocs[..|allocs|] == allocs;
    }
  }
}

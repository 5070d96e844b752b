/** The mempool object (core/node/mempool.go): nonce lanes per account with running counters. */
module Mempool {
  import opened Wrappers
  import opened ChainTypes
  import opened LedgerSpec
  import opened BlockRules
  import opened PoolSpec

  type Lanes = map<Id, map<nat, MemTx>>

  datatype MempoolConfig = MempoolConfig(
    maxTxs: nat, maxBytes: int, ttlSeconds: int, allowFutureNonces: bool, maxNonceGap: nat, rbfMinFeeBump: real)

  // ----- lanes as one flat pool -----

  predicate InLane(lanes: Lanes, k: Key) { k.acct in lanes && k.nonce in lanes[k.acct] }

  // The lanes hold exactly the pool's entries; a lane may be empty.
  ghost predicate Rep(lanes: Lanes, pool: Pool) {
    forall k :: (k in pool <==> InLane(lanes, k)) && (InLane(lanes, k) ==> lanes[k.acct][k.nonce] == pool[k])
  }

  lemma RepPut(lanes: Lanes, pool: Pool, lane: map<nat, MemTx>, k: Key, m: MemTx)
    requires Rep(lanes, pool) && k.acct in lanes && lane == lanes[k.acct]
    ensures Rep(lanes[k.acct := lane[k.nonce := m]], pool[k := m])
  {
  }

  lemma RepDelete(lanes: Lanes, pool: Pool, k: Key)
    requires Rep(lanes, pool) && k.acct in lanes
    ensures Rep(lanes[k.acct := lanes[k.acct] - {k.nonce}], pool - {k})
  {
  }

  lemma RepNewLane(lanes: Lanes, pool: Pool, a: Id)
    requires Rep(lanes, pool) && a !in lanes
    ensures Rep(lanes[a := map[]], pool)
  {
  }

  lemma RepDropLane(lanes: Lanes, pool: Pool, a: Id)
    requires Rep(lanes, pool) && a in lanes && lanes[a] == map[]
    ensures Rep(lanes - {a}, pool)
  {
  }

  // ----- what each operation amounts to -----

  // The entries that have not outlived their time.
  ghost function Pruned(pool: Pool, cut: int): Pool { map k | k in pool && pool[k].addedAt > cut :: pool[k] }

  // Pruning under way: in account `a`, the nonces in `rest` are still to be looked at.
  ghost function LanePruned(pool: Pool, cut: int, a: Id, rest: set<nat>): Pool {
    map k | k in pool && (k.acct == a ==> pool[k].addedAt > cut || k.nonce in rest) :: pool[k]
  }

  lemma LanePrunedStep(pool: Pool, cut: int, a: Id, rest: set<nat>, n: nat)
    requires n in rest && Key(a, n) in pool
    ensures LanePruned(pool, cut, a, rest - {n}) ==
            if pool[Key(a, n)].addedAt <= cut then LanePruned(pool, cut, a, rest) - {Key(a, n)} else LanePruned(pool, cut, a, rest)
  {
  }

  // Likewise for the accounts in `rest`.
  ghost function AcctsPruned(pool: Pool, cut: int, rest: set<Id>): Pool {
    map k | k in pool && (pool[k].addedAt > cut || k.acct in rest) :: pool[k]
  }

  lemma AcctsPrunedStep(pool: Pool, cut: int, rest: set<Id>, a: Id)
    requires a in rest
    ensures AcctsPruned(pool, cut, rest - {a}) == LanePruned(AcctsPruned(pool, cut, rest), cut, a, {})
  {
  }

  // Conversion of a float to an integer drops the fraction.
  function Trunc(x: real): int { if x >= 0.0 then x.Floor else -((-x).Floor) }

  predicate NonceAdmitted(cfg: MempoolConfig, nonces: Nonces, a: Id, nonce: nat) {
    var expected := NonceOf(nonces, a) + 1;
    if cfg.allowFutureNonces then expected <= nonce <= expected + cfg.maxNonceGap else nonce == expected
  }

  function Entry(tx: Tx, id: string, now: int): MemTx {
    MemTx(tx, id, tx.from, tx.nonce, tx.fee, SizeHint(tx), tx.fee as real / SizeHint(tx) as real, now)
  }

  function MinReplacementFee(cfg: MempoolConfig, fee: int): int { Trunc(fee as real * cfg.rbfMinFeeBump) }

  // A replacement must raise the fee enough; a new entry must find room.
  ghost predicate HasRoom(cfg: MempoolConfig, pool: Pool, m: MemTx) {
    if KeyOf(m) in pool then m.fee >= MinReplacementFee(cfg, pool[KeyOf(m)].fee)
    else |pool| + 1 <= cfg.maxTxs && SumSizes(pool) + m.size <= cfg.maxBytes
  }

  ghost predicate Admits(cfg: MempoolConfig, nonces: Nonces, pool: Pool, m: MemTx) {
    m.from != "" && NonceAdmitted(cfg, nonces, m.from, m.nonce) && HasRoom(cfg, pool, m)
  }

  // An admitted entry is stored under its key, and the caller told whether it replaced one.
  ghost predicate Added(cfg: MempoolConfig, nonces: Nonces, before: Pool, m: MemTx, after: Pool, r: Result<bool, string>) {
    if Admits(cfg, nonces, before, m) then r == Ok(KeyOf(m) in before) && after == before[KeyOf(m) := m]
    else r.Err? && after == before
  }

  /** The byte limit is checked for new entries only: adding keeps it exactly unless the entry
      replaces a smaller one and the difference no longer fits. */
  lemma BytesStayWithinIff(cfg: MempoolConfig, nonces: Nonces, before: Pool, m: MemTx, after: Pool, r: Result<bool, string>)
    requires Added(cfg, nonces, before, m, after, r) && SumSizes(before) <= cfg.maxBytes
    ensures SumSizes(after) <= cfg.maxBytes <==>
      !(Admits(cfg, nonces, before, m) && KeyOf(m) in before && SumSizes(before) - before[KeyOf(m)].size + m.size > cfg.maxBytes)
  {
    SumSizesPut(before, KeyOf(m), m);
  }

  // A free entry at the first nonce of an account, and its replacement by a larger one.
  lemma ReplaceByLarger(cfg: MempoolConfig, a: MemTx, b: MemTx)
    requires cfg.maxTxs == 1 && !cfg.allowFutureNonces && a.size <= cfg.maxBytes < b.size
    requires a.from == b.from != "" && a.nonce == b.nonce == 1 && a.fee == b.fee == 0
    ensures var p1: Pool := map[KeyOf(a) := a];
            var p2: Pool := map[KeyOf(b) := b];
            && Added(cfg, map[], map[], a, p1, Ok(false)) && SumSizes(p1) == a.size
            && Added(cfg, map[], p1, b, p2, Ok(true)) && SumSizes(p2) == b.size
  {
    var none: Pool := map[];
    SumSizesPut(none, KeyOf(a), a);
    SumSizesPut(none, KeyOf(b), b);
    FreeReplacement(cfg);
    var p1: Pool := map[KeyOf(a) := a];
    assert none[KeyOf(a) := a] == p1 && p1[KeyOf(b) := b] == map[KeyOf(b) := b];
  }

  lemma FreeReplacement(cfg: MempoolConfig)
    ensures MinReplacementFee(cfg, 0) == 0
  {
    assert 0 as real * cfg.rbfMinFeeBump == 0.0;
  }

  /** And that happens: from the empty pool, one transaction and its replacement by one with more
      outputs, both admitted, end above the limit. */
  lemma ReplacementOverfills()
    ensures exists cfg: MempoolConfig, a: Tx, b: Tx, p1: Pool, p2: Pool ::
      && Added(cfg, map[], map[], Entry(a, "x", 0), p1, Ok(false)) && SumSizes(p1) <= cfg.maxBytes
      && Added(cfg, map[], p1, Entry(b, "y", 0), p2, Ok(true)) && SumSizes(p2) > cfg.maxBytes
  {
    var out := TxOut(0, "", "b", "", "", "", "", 0);
    var small := Tx(1, "transfer", "a", "a", "s", 1, 0, "", [], None, "");
    var large := small.(outputs := [out]);
    var cfg := MempoolConfig(1, 180, 1, false, 0, 1.1);
    ReplaceByLarger(cfg, Entry(small, "x", 0), Entry(large, "y", 0));
  }

  // The entry is filed with its transaction's own sender, nonce, fee and estimated size.
  ghost predicate OwnData(m: MemTx) {
    && m.from == m.tx.from && m.nonce == m.tx.nonce && m.fee == m.tx.fee && m.size == 180 + 80 * |m.tx.outputs|
    && Fair(m)
  }

  ghost predicate Filed(pool: Pool) { forall k :: k in pool ==> OwnData(pool[k]) }

  lemma EntryHasOwnData(tx: Tx, id: string, now: int)
    ensures OwnData(Entry(tx, id, now))
  {
  }

  /** An entry is admitted exactly when it names a sender, its nonce is the next one or, where the node
      allows it, at most the configured gap later, and there is room; and it replaces an entry of
      its account and nonce exactly when it pays the bumped fee, rounded towards zero. */
  lemma AdmitsIff(cfg: MempoolConfig, nonces: Nonces, pool: Pool, m: MemTx)
    ensures Admits(cfg, nonces, pool, m) <==>
            && m.from != ""
            && 1 <= m.nonce - NonceOf(nonces, m.from) <= 1 + (if cfg.allowFutureNonces then cfg.maxNonceGap else 0)
            && if Key(m.from, m.nonce) in pool then Bumped(cfg, pool[Key(m.from, m.nonce)].fee, m.fee)
               else |pool| < cfg.maxTxs && SumSizes(pool) + m.size <= cfg.maxBytes
  {
    if Key(m.from, m.nonce) in pool { BumpIff(cfg, pool[Key(m.from, m.nonce)].fee, m.fee); }
  }

  // At least the old fee times the bump, but for a fraction lost in rounding towards zero.
  predicate Bumped(cfg: MempoolConfig, before: int, fee: int) {
    var bumped := before as real * cfg.rbfMinFeeBump;
    if bumped >= 0.0 then fee as real > bumped - 1.0 else fee as real >= bumped
  }

  lemma BumpIff(cfg: MempoolConfig, before: int, fee: int)
    ensures fee >= MinReplacementFee(cfg, before) <==> Bumped(cfg, before, fee)
  {
    var x := before as real * cfg.rbfMinFeeBump;
    if x >= 0.0 { FloorIff(x, fee); } else { FloorIff(-x, -fee); }
  }

  lemma FloorIff(x: real, n: int)
    ensures n >= x.Floor <==> n as real > x - 1.0
    ensures n <= x.Floor <==> n as real <= x
  {
    var f := x.Floor;
    assert f as real <= x < f as real + 1.0;
  }

  // The counters are the true count and byte sum, within the configured number.
  ghost predicate Consistent(cfg: MempoolConfig, lanes: Lanes, totalTxs: int, totalBytes: int, pool: Pool) {
    && Rep(lanes, pool) && KeyedPool(pool) && Filed(pool)
    && totalTxs == |pool| <= cfg.maxTxs
    && totalBytes == SumSizes(pool)
  }

  lemma ConsistentPut(cfg: MempoolConfig, lanes: Lanes, totalTxs: int, totalBytes: int, pool: Pool, lane: map<nat, MemTx>, m: MemTx)
    requires Consistent(cfg, lanes, totalTxs, totalBytes, pool) && m.from in lanes && lane == lanes[m.from]
    requires (KeyOf(m) !in pool ==> totalTxs < cfg.maxTxs) && OwnData(m)
    ensures var k := KeyOf(m);
            Consistent(cfg, lanes[k.acct := lane[k.nonce := m]], totalTxs + (if k in pool then 0 else 1),
                       totalBytes + m.size - (if k in pool then pool[k].size else 0), pool[k := m])
  {
    var k := KeyOf(m);
    RepPut(lanes, pool, lane, k, m);
    SumSizesPut(pool, k, m);
    PoolSizePut(pool, k, m);
  }

  lemma ConsistentDelete(cfg: MempoolConfig, lanes: Lanes, totalTxs: int, totalBytes: int, pool: Pool, k: Key)
    requires Consistent(cfg, lanes, totalTxs, totalBytes, pool) && k in pool
    ensures InLane(lanes, k)
    ensures Consistent(cfg, lanes[k.acct := lanes[k.acct] - {k.nonce}], totalTxs - 1,
                       totalBytes - lanes[k.acct][k.nonce].size, pool - {k})
  {
    assert InLane(lanes, k);
    RepDelete(lanes, pool, k);
    PoolSizeRemove(pool, k);
    SumSizesRemove(pool, k);
  }

  // ----- the object -----

  class Mempool {
    const cfg: MempoolConfig
    var byAcct: Lanes
    var totalTxs: int
    var totalBytes: int
    ghost var pool: Pool

    ghost predicate Valid()
      reads this
    {
      Consistent(cfg, byAcct, totalTxs, totalBytes, pool)
    }

    constructor (cfg: MempoolConfig)
      ensures Valid() && this.cfg == cfg && pool == map[]
    {
      this.cfg := cfg;
      byAcct, totalTxs, totalBytes, pool := map[], 0, 0, map[];
    }

    method Delete(k: Key)
      requires Valid() && k in pool
      modifies this
      ensures Valid() && pool == old(pool) - {k}
      ensures byAcct.Keys == old(byAcct).Keys && k.acct in byAcct
    {
      ConsistentDelete(cfg, byAcct, totalTxs, totalBytes, pool, k);
      var m := byAcct[k.acct][k.nonce];
      byAcct := byAcct[k.acct := byAcct[k.acct] - {k.nonce}];
      pool := pool - {k};
      totalTxs := totalTxs - 1;
      totalBytes := totalBytes - m.size;
    }

    method DropIfEmpty(a: Id)
      requires Valid() && a in byAcct
      modifies this`byAcct
      ensures Valid() && old(byAcct).Keys - {a} <= byAcct.Keys <= old(byAcct).Keys
    {
      if |byAcct[a]| == 0 {
        RepDropLane(byAcct, pool, a);
        byAcct := byAcct - {a};
      }
    }

    method PruneLane(a: Id, cut: int)
      requires Valid() && a in byAcct
      modifies this
      ensures Valid() && byAcct.Keys == old(byAcct).Keys
      ensures pool == LanePruned(old(pool), cut, a, {})
    {
      var rest := byAcct[a].Keys;
      LaneKeys(byAcct, pool, a, cut);
      while rest != {}
        invariant Valid() && byAcct.Keys == old(byAcct).Keys
        invariant forall n :: n in rest ==> Key(a, n) in old(pool)
        invariant pool == LanePruned(old(pool), cut, a, rest)
      {
        var n :| n in rest;
        LanePrunedStep(old(pool), cut, a, rest, n);
        rest := rest - {n};
        Expire(Key(a, n), cut);
      }
    }

    method PruneAcct(a: Id, cut: int)
      requires Valid() && a in byAcct
      modifies this
      ensures Valid() && old(byAcct).Keys - {a} <= byAcct.Keys
      ensures pool == LanePruned(old(pool), cut, a, {})
    {
      PruneLane(a, cut);
      DropIfEmpty(a);
    }

    // Drop one entry if it has outlived its time.
    method Expire(k: Key, cut: int)
      requires Valid() && k in pool
      modifies this
      ensures Valid() && byAcct.Keys == old(byAcct).Keys
      ensures pool == if old(pool)[k].addedAt <= cut then old(pool) - {k} else old(pool)
    {
      assert InLane(byAcct, k);
      if byAcct[k.acct][k.nonce].addedAt <= cut { Delete(k); }
    }

    /** Drops exactly the entries that have outlived their time. */
    method PruneLocked(now: int)
      requires Valid()
      modifies this
      ensures Valid() && pool == Pruned(old(pool), now - cfg.ttlSeconds)
      ensures forall k :: k in pool <==> k in old(pool) && now - old(pool)[k].addedAt < cfg.ttlSeconds
    {
      var cut := now - cfg.ttlSeconds;
      var rest := byAcct.Keys;
      AcctKeys(byAcct, pool, cut);
      while rest != {}
        invariant Valid() && rest <= byAcct.Keys
        invariant pool == AcctsPruned(old(pool), cut, rest)
      {
        var a :| a in rest;
        AcctsPrunedStep(old(pool), cut, rest, a);
        rest := rest - {a};
        PruneAcct(a, cut);
      }
    }

    /** After pruning, a transaction is stored under its account and nonce exactly when it is
        admitted; otherwise the pool is left pruned. */
    method Add(nonces: Nonces, tx: Tx, id: string, now: int) returns (r: Result<bool, string>)
      requires Valid()
      modifies this
      ensures Valid()
      ensures Added(cfg, nonces, Pruned(old(pool), now - cfg.ttlSeconds), Entry(tx, id, now), pool, r)
    {
      PruneLocked(now);
      r := Admit(nonces, Entry(tx, id, now));
    }

    method Admit(nonces: Nonces, m: MemTx) returns (r: Result<bool, string>)
      requires Valid() && OwnData(m)
      modifies this
      ensures Valid()
      ensures Added(cfg, nonces, old(pool), m, pool, r)
    {
      if m.from == "" { return Err("missing_from"); }
      var expected := NonceOf(nonces, m.from) + 1;
      if !cfg.allowFutureNonces {
        if m.nonce != expected { return Err("nonce_not_next"); }
      } else {
        if m.nonce < expected { return Err("nonce_too_low"); }
        if m.nonce - expected > cfg.maxNonceGap { return Err("nonce_gap_too_large"); }
      }
      r := Insert(KeyOf(m), m);
    }

    method Insert(k: Key, m: MemTx) returns (r: Result<bool, string>)
      requires Valid() && KeyOf(m) == k && OwnData(m)
      modifies this
      ensures Valid()
      ensures if HasRoom(cfg, old(pool), m) then r == Ok(k in old(pool)) && pool == old(pool)[k := m]
              else r.Err? && pool == old(pool)
    {
      if k.acct !in byAcct {
        RepNewLane(byAcct, pool, k.acct);
        byAcct := byAcct[k.acct := map[]];
      }
      assert InLane(byAcct, k) <==> k in pool;
      if k.nonce in byAcct[k.acct] {
        var was := byAcct[k.acct][k.nonce];
        if m.fee < MinReplacementFee(cfg, was.fee) { return Err("rbf_fee_bump_too_small"); }
        Put(k, m, 0, m.size - was.size);
        return Ok(true);
      }
      if totalTxs + 1 > cfg.maxTxs { return Err("mempool_full"); }
      if totalBytes + m.size > cfg.maxBytes { return Err("mempool_bytes_full"); }
      Put(k, m, 1, m.size);
      return Ok(false);
    }

    method Put(k: Key, m: MemTx, count: int, bytes: int)
      requires Valid() && KeyOf(m) == k && k.acct in byAcct && OwnData(m)
      requires count == (if k in pool then 0 else 1) && totalTxs + count <= cfg.maxTxs
      requires bytes == m.size - if k in pool then pool[k].size else 0
      modifies this
      ensures Valid() && pool == old(pool)[k := m]
    {
      var lane: map<nat, MemTx> := byAcct[k.acct];
      ConsistentPut(cfg, byAcct, totalTxs, totalBytes, pool, lane, m);
      byAcct := byAcct[k.acct := lane[k.nonce := m]];
      pool := pool[k := m];
      totalTxs := totalTxs + count;
      totalBytes := totalBytes + bytes;
    }

    // The next nonce of every account with a lane, and the entries waiting at it.
    method CollectHeads(nonces: Nonces) returns (expected: map<Id, nat>, pq: set<MemTx>)
      requires Valid()
      ensures Expecting(byAcct.Keys, expected, nonces)
      ensures pq == Heads(pool, nonces)
    {
      expected, pq := map[], {};
      var rest := byAcct.Keys;
      while rest != {}
        invariant rest <= byAcct.Keys && Expecting(byAcct.Keys - rest, expected, nonces)
        invariant forall m :: m in pq ==> m in Heads(pool, nonces)
        invariant forall m :: m in Heads(pool, nonces) && m.from !in rest ==> m in pq
      {
        var a :| a in rest;
        rest := rest - {a};
        var n := NonceOf(nonces, a) + 1;
        expected := expected[a := n];
        assert InLane(byAcct, Key(a, n)) <==> Key(a, n) in pool;
        HeadsOf(pool, nonces, a);
        if n in byAcct[a] { pq := pq + {byAcct[a][n]}; }
      }
      forall m | m in Heads(pool, nonces) ensures m in pq { }
      assert byAcct.Keys - rest == byAcct.Keys;
    }

    /** Drains by priority: the transactions taken form a drain run of the pruned pool, which
        goes on until `maxCount` are taken (if positive) or no account has a head left. Each pays,
        for its own size, no less than any that could have been taken instead. */
    method Drain(nonces: Nonces, maxCount: int, now: int) returns (out: seq<Tx>, ghost run: seq<MemTx>)
      requires Valid()
      modifies this
      ensures Valid()
      ensures var pruned := Pruned(old(pool), now - cfg.ttlSeconds);
              && DrainRun(pruned, nonces, run) && pool == PoolAfter(pruned, run) && out == Txs(run)
              && (maxCount > 0 ==> |out| <= maxCount)
              && ((maxCount > 0 && |out| == maxCount) || Heads(pool, NoncesAfter(nonces, run)) == {})
              && BestPayersFirst(pruned, nonces, out)
    {
      PruneLocked(now);
      var expected, pq := CollectHeads(nonces);
      out, run := [], [];
      ghost var start := pool;
      while pq != {} && (maxCount <= 0 || |out| < maxCount)
        invariant Valid() && Expecting(byAcct.Keys, expected, NoncesAfter(nonces, run))
        invariant Draining(start, nonces, run, pool, pq, out)
        invariant maxCount > 0 ==> |out| <= maxCount
        decreases |pool|
      {
        BestExists(pq);
        var mt :| mt in pq && forall x :: x in pq ==> !Better(x, mt);
        DrainingStep(start, nonces, run, pool, pq, out, mt);
        expected, pq := TakeHead(NoncesAfter(nonces, run), expected, pq, mt);
        out, run := out + [mt.tx], run + [mt];
      }
      DrainPays(start, nonces, run);
    }

    // Take one entry popped from the queue. It is always the entry its account waits for, so
    // the queue never holds a stale one.
    method TakeHead(ghost nonces: Nonces, expected0: map<Id, nat>, pq0: set<MemTx>, mt: MemTx)
      returns (expected: map<Id, nat>, pq: set<MemTx>)
      requires Valid() && pq0 == Heads(pool, nonces) && mt in pq0
      requires Expecting(byAcct.Keys, expected0, nonces)
      modifies this
      ensures Valid() && pool == old(pool) - {KeyOf(mt)} && |pool| < |old(pool)|
      ensures pq == Heads(pool, nonces[mt.from := mt.nonce])
      ensures Expecting(byAcct.Keys, expected, nonces[mt.from := mt.nonce])
    {
      HeadStep(byAcct, pool, nonces, expected0, mt);
      ghost var keys := byAcct.Keys;
      var exp := expected0[mt.from];
      var next := RemoveHead(Key(mt.from, exp));
      expected := expected0[mt.from := exp + 1];
      pq := pq0 - {mt} + next;
      ExpectingFewer(keys, byAcct.Keys, expected, nonces[mt.from := mt.nonce]);
    }

    // Remove an entry, and tell which one waits behind it in its lane.
    method RemoveHead(k: Key) returns (next: set<MemTx>)
      requires Valid() && k in pool
      modifies this
      ensures Valid() && pool == old(pool) - {k} && |pool| < |old(pool)|
      ensures byAcct.Keys <= old(byAcct).Keys
      ensures next == NextInLane(old(pool), k)
    {
      next := Waiting(k);
      RemoveEntry(k);
    }

    method Waiting(k: Key) returns (next: set<MemTx>)
      requires Valid() && k in pool
      ensures next == NextInLane(pool, k)
    {
      assert InLane(byAcct, k);
      assert InLane(byAcct, Key(k.acct, k.nonce + 1)) <==> Key(k.acct, k.nonce + 1) in pool;
      next := if k.nonce + 1 in byAcct[k.acct] then {byAcct[k.acct][k.nonce + 1]} else {};
    }

    method RemoveEntry(k: Key)
      requires Valid() && k in pool
      modifies this
      ensures Valid() && pool == old(pool) - {k} && |pool| < |old(pool)|
      ensures byAcct.Keys <= old(byAcct).Keys
    {
      PoolSizeRemove(pool, k);
      Delete(k);
      DropIfEmpty(k.acct);
    }
  }

  // ----- loop state of a drain -----

  lemma LaneKeys(lanes: Lanes, pool: Pool, a: Id, cut: int)
    requires Rep(lanes, pool) && a in lanes
    ensures forall n :: n in lanes[a].Keys ==> Key(a, n) in pool
    ensures LanePruned(pool, cut, a, lanes[a].Keys) == pool
  {
    forall n ensures n in lanes[a].Keys <==> Key(a, n) in pool { assert InLane(lanes, Key(a, n)) <==> Key(a, n) in pool; }
    forall k | k in pool && k.acct == a ensures k.nonce in lanes[a].Keys { assert k == Key(a, k.nonce); }
  }

  lemma AcctKeys(lanes: Lanes, pool: Pool, cut: int)
    requires Rep(lanes, pool)
    ensures AcctsPruned(pool, cut, lanes.Keys) == pool && AcctsPruned(pool, cut, {}) == Pruned(pool, cut)
  {
    forall k | k in pool ensures k.acct in lanes.Keys { assert InLane(lanes, k); }
  }

  // Every account with a lane is expected to go on right after its nonce.
  ghost predicate Expecting(accts: set<Id>, expected: map<Id, nat>, nonces: Nonces) {
    forall a :: a in accts ==> a in expected && expected[a] == NonceOf(nonces, a) + 1
  }

  ghost function NextInLane(pool: Pool, k: Key): set<MemTx> {
    var next := Key(k.acct, k.nonce + 1);
    if next in pool then {pool[next]} else {}
  }

  lemma ExpectingFewer(accts: set<Id>, fewer: set<Id>, expected: map<Id, nat>, nonces: Nonces)
    requires Expecting(accts, expected, nonces) && fewer <= accts
    ensures Expecting(fewer, expected, nonces)
  {
  }

  // A head taken from the queue is the entry its account is expected to go on with.
  lemma HeadStep(lanes: Lanes, pool: Pool, nonces: Nonces, expected: map<Id, nat>, mt: MemTx)
    requires Rep(lanes, pool) && KeyedPool(pool) && Expecting(lanes.Keys, expected, nonces) && mt in Heads(pool, nonces)
    ensures KeyOf(mt) in pool && InLane(lanes, KeyOf(mt)) && lanes[mt.from][mt.nonce] == mt
    ensures mt.from in expected && expected[mt.from] == mt.nonce
    ensures Expecting(lanes.Keys, expected[mt.from := mt.nonce + 1], nonces[mt.from := mt.nonce])
    ensures Heads(pool - {KeyOf(mt)}, nonces[mt.from := mt.nonce]) == Heads(pool, nonces) - {mt} + NextInLane(pool, KeyOf(mt))
  {
    HeadKey(pool, nonces, mt);
    assert InLane(lanes, KeyOf(mt));
    HeadsAfter(pool, nonces, mt);
  }

  function Txs(run: seq<MemTx>): seq<Tx> { seq(|run|, i requires 0 <= i < |run| => run[i].tx) }

  // The transaction's fee per byte of estimated size is no less than that of `other`, and for equal
  // rates its fee is no less.
  predicate OutPays(tx: Tx, other: Tx) {
    var mine, its := tx.fee * (180 + 80 * |other.outputs|), other.fee * (180 + 80 * |tx.outputs|);
    mine >= its && (mine == its ==> tx.fee >= other.fee)
  }

  // The account's next transaction after those already taken is waiting in the pool.
  ghost predicate Takeable(pool: Pool, nonces: Nonces, taken: seq<Tx>, k: Key) {
    k in pool && k.nonce == NonceOf(nonces, k.acct) + 1 + TakenFrom(taken, k.acct)
  }

  // How many of these the account sent.
  function TakenFrom(txs: seq<Tx>, a: Id): nat {
    if txs == [] then 0 else (if txs[0].from == a then 1 else 0) + TakenFrom(txs[1..], a)
  }

  ghost predicate BestPayersFirst(pool: Pool, nonces: Nonces, out: seq<Tx>) {
    forall i, k :: 0 <= i < |out| && Takeable(pool, nonces, out[..i], k) ==> OutPays(out[i], pool[k].tx)
  }

  lemma {:induction false} RunFiled(pool: Pool, nonces: Nonces, run: seq<MemTx>, i: nat)
    requires KeyedPool(pool) && Filed(pool) && DrainRun(pool, nonces, run) && i < |run|
    ensures OwnData(run[i])
    decreases i
  {
    var h := run[0];
    HeadKey(pool, nonces, h);
    if i > 0 { RunFiled(pool - {KeyOf(h)}, nonces[h.from := h.nonce], run[1..], i - 1); }
  }

  lemma {:induction false} LaneCount(run: seq<MemTx>, a: Id)
    requires forall i :: 0 <= i < |run| ==> run[i].from == run[i].tx.from
    ensures |Lane(run, a)| == TakenFrom(Txs(run), a)
    decreases |run|
  {
    if run == [] {
      assert Txs(run) == [];
    } else {
      LaneCount(run[1..], a);
      assert Txs(run)[0] == run[0].tx && Txs(run)[1..] == Txs(run[1..]);
    }
  }

  lemma TakenNonces(pool: Pool, nonces: Nonces, run: seq<MemTx>, a: Id)
    requires KeyedPool(pool) && Filed(pool) && DrainRun(pool, nonces, run)
    ensures NonceOf(NoncesAfter(nonces, run), a) == NonceOf(nonces, a) + TakenFrom(Txs(run), a)
  {
    DrainIsHeadRun(pool, nonces, run);
    LaneNonces(pool, nonces, run, a);
    forall i | 0 <= i < |run| ensures run[i].from == run[i].tx.from { RunFiled(pool, nonces, run, i); }
    LaneCount(run, a);
  }

  // A beginning of a drain is a drain, and the next entry is best among what is left.
  lemma {:induction false} RunPrefix(pool: Pool, nonces: Nonces, run: seq<MemTx>, i: nat)
    requires DrainRun(pool, nonces, run) && i < |run|
    ensures DrainRun(pool, nonces, run[..i])
    ensures IsBest(run[i], Heads(PoolAfter(pool, run[..i]), NoncesAfter(nonces, run[..i])))
    decreases i
  {
    if i == 0 {
      assert run[..0] == [];
    } else {
      var h := run[0];
      assert run[..i][0] == h && run[..i][1..] == run[1..][..i - 1];
      RunPrefix(pool - {KeyOf(h)}, nonces[h.from := h.nonce], run[1..], i - 1);
    }
  }

  lemma TakeableIsHead(pool: Pool, nonces: Nonces, run: seq<MemTx>, k: Key)
    requires KeyedPool(pool) && Filed(pool) && DrainRun(pool, nonces, run) && Takeable(pool, nonces, Txs(run), k)
    ensures pool[k] in Heads(PoolAfter(pool, run), NoncesAfter(nonces, run))
  {
    TakenNonces(pool, nonces, run, k.acct);
    DrainIsHeadRun(pool, nonces, run);
    StillThere(pool, nonces, run, k);
  }

  /** So the drained transactions come by fee per size, then by fee, among what their senders'
      nonces allow at each moment. */
  lemma DrainPays(pool: Pool, nonces: Nonces, run: seq<MemTx>)
    requires KeyedPool(pool) && Filed(pool) && DrainRun(pool, nonces, run)
    ensures BestPayersFirst(pool, nonces, Txs(run))
  {
    var out := Txs(run);
    forall i, k | 0 <= i < |out| && Takeable(pool, nonces, out[..i], k) ensures OutPays(out[i], pool[k].tx) {
      DrainPaysAt(pool, nonces, run, i, k);
    }
  }

  lemma DrainPaysAt(pool: Pool, nonces: Nonces, run: seq<MemTx>, i: nat, k: Key)
    requires KeyedPool(pool) && Filed(pool) && DrainRun(pool, nonces, run) && i < |run|
    requires Takeable(pool, nonces, Txs(run)[..i], k)
    ensures OutPays(run[i].tx, pool[k].tx)
  {
    assert Txs(run)[..i] == Txs(run[..i]);
    RunPrefix(pool, nonces, run, i);
    TakeableIsHead(pool, nonces, run[..i], k);
    RunFiled(pool, nonces, run, i);
    DrainTakesBestPayers(pool, nonces, run, i, pool[k]);
  }

  ghost predicate Draining(start: Pool, nonces: Nonces, run: seq<MemTx>, pool: Pool, pq: set<MemTx>, out: seq<Tx>) {
    && DrainRun(start, nonces, run) && pool == PoolAfter(start, run) && out == Txs(run)
    && pq == Heads(pool, NoncesAfter(nonces, run))
  }

  lemma DrainingStep(start: Pool, nonces: Nonces, run: seq<MemTx>, pool: Pool, pq: set<MemTx>, out: seq<Tx>, mt: MemTx)
    requires Draining(start, nonces, run, pool, pq, out) && IsBest(mt, pq)
    ensures NoncesAfter(nonces, run + [mt]) == NoncesAfter(nonces, run)[mt.from := mt.nonce]
    ensures var pool', nonces' := pool - {KeyOf(mt)}, NoncesAfter(nonces, run + [mt]);
            Draining(start, nonces, run + [mt], pool', Heads(pool', nonces'), out + [mt.tx])
  {
    RunExtend(start, nonces, run, mt);
  }

  // The head of one account is its entry at the next nonce, if it has one.
  lemma HeadsOf(pool: Pool, nonces: Nonces, a: Id)
    requires KeyedPool(pool)
    ensures var k := Key(a, NonceOf(nonces, a) + 1);
            && (k in pool ==> pool[k] in Heads(pool, nonces))
            && forall m :: m in Heads(pool, nonces) && m.from == a ==> k in pool && m == pool[k]
  {
    forall m | m in Heads(pool, nonces) && m.from == a
      ensures Key(a, NonceOf(nonces, a) + 1) in pool && m == pool[Key(a, NonceOf(nonces, a) + 1)]
    {
      HeadKey(pool, nonces, m);
    }
  }
}

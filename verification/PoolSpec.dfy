/** What the mempool holds and in which order it is drained, on plain maps
    (core/node/mempool.go). */
module PoolSpec {
  import opened ChainTypes
  import opened LedgerSpec

  datatype MemTx = MemTx(tx: Tx, id: string, from: Id, nonce: nat, fee: int, size: nat, feeRate: real, addedAt: int)

  datatype Key = Key(acct: Id, nonce: nat)

  // One entry per account and nonce.
  type Pool = map<Key, MemTx>

  function KeyOf(m: MemTx): Key { Key(m.from, m.nonce) }

  ghost predicate KeyedPool(pool: Pool) {
    forall k :: k in pool ==> pool[k].from == k.acct && pool[k].nonce == k.nonce
  }

  ghost function SumSizes(pool: Pool): int {
    if pool == map[] then 0 else var k :| k in pool; pool[k].size + SumSizes(pool - {k})
  }

  lemma {:induction false} SumSizesRemove(pool: Pool, k: Key)
    requires k in pool
    ensures SumSizes(pool) == pool[k].size + SumSizes(pool - {k})
    decreases |pool|
  {
    var j :| j in pool && SumSizes(pool) == pool[j].size + SumSizes(pool - {j});
    if j != k {
      SumSizesRemove(pool - {j}, k);
      SumSizesRemove(pool - {k}, j);
      assert (pool - {j}) - {k} == (pool - {k}) - {j};
    }
  }

  lemma SumSizesPut(pool: Pool, k: Key, m: MemTx)
    ensures SumSizes(pool[k := m]) == SumSizes(pool) + m.size - if k in pool then pool[k].size else 0
  {
    SumSizesRemove(pool[k := m], k);
    assert pool[k := m] - {k} == pool - {k};
    if k in pool { SumSizesRemove(pool, k); } else { assert pool - {k} == pool; }
  }

  lemma PoolSizePut(pool: Pool, k: Key, m: MemTx)
    ensures |pool[k := m]| == |pool| + if k in pool then 0 else 1
  {
    assert pool[k := m].Keys == pool.Keys + {k};
  }

  lemma PoolSizeRemove(pool: Pool, k: Key)
    requires k in pool
    ensures |pool - {k}| == |pool| - 1
  {
    assert (pool - {k}).Keys == pool.Keys - {k};
  }

  // ----- priority -----

  // Higher fee rate first, then higher fee.
  predicate Better(a: MemTx, b: MemTx) {
    if a.feeRate == b.feeRate then a.fee > b.fee else a.feeRate > b.feeRate
  }

  ghost predicate IsBest(m: MemTx, s: set<MemTx>) { m in s && forall x :: x in s ==> !Better(x, m) }

  lemma {:induction false} BestExists(s: set<MemTx>)
    requires s != {}
    ensures exists m :: IsBest(m, s)
    decreases |s|
  {
    var x :| x in s;
    var rest := s - {x};
    if rest == {} {
      assert s == {x};
      assert IsBest(x, s);
    } else {
      BestExists(rest);
      var y :| IsBest(y, rest);
      if Better(x, y) {
        forall z | z in s ensures !Better(z, x) { if z != x { assert z in rest && !Better(z, y); } }
        assert IsBest(x, s);
      } else {
        assert IsBest(y, s);
      }
    }
  }

  // ----- draining -----

  // Each account's entry at its next nonce.
  ghost function Heads(pool: Pool, nonces: Nonces): set<MemTx> {
    set k | k in pool && k.nonce == NonceOf(nonces, k.acct) + 1 :: pool[k]
  }

  /** A drain from this pool: each transaction taken is best among the heads of all accounts
      at that moment, and moves its own account on by one nonce. */
  ghost predicate DrainRun(pool: Pool, nonces: Nonces, run: seq<MemTx>)
    decreases |run|
  {
    run != [] ==>
      && IsBest(run[0], Heads(pool, nonces))
      && DrainRun(pool - {KeyOf(run[0])}, nonces[run[0].from := run[0].nonce], run[1..])
  }

  ghost function PoolAfter(pool: Pool, run: seq<MemTx>): Pool
    decreases |run|
  {
    if run == [] then pool else PoolAfter(pool - {KeyOf(run[0])}, run[1..])
  }

  ghost function NoncesAfter(nonces: Nonces, run: seq<MemTx>): Nonces
    decreases |run|
  {
    if run == [] then nonces else NoncesAfter(nonces[run[0].from := run[0].nonce], run[1..])
  }

  lemma HeadKey(pool: Pool, nonces: Nonces, m: MemTx)
    requires KeyedPool(pool) && m in Heads(pool, nonces)
    ensures KeyOf(m) in pool && pool[KeyOf(m)] == m && m.nonce == NonceOf(nonces, m.from) + 1
  {
    var k :| k in pool && k.nonce == NonceOf(nonces, k.acct) + 1 && pool[k] == m;
    assert k == KeyOf(m);
  }

  // Taking a head leaves the other heads, and puts the account's next entry in its place.
  lemma HeadsAfter(pool: Pool, nonces: Nonces, m: MemTx)
    requires KeyedPool(pool) && m in Heads(pool, nonces)
    ensures var next := Key(m.from, m.nonce + 1);
            Heads(pool - {KeyOf(m)}, nonces[m.from := m.nonce])
            == Heads(pool, nonces) - {m} + if next in pool then {pool[next]} else {}
  {
    HeadKey(pool, nonces, m);
    var pool', nonces', next := pool - {KeyOf(m)}, nonces[m.from := m.nonce], Key(m.from, m.nonce + 1);
    var l, r := Heads(pool', nonces'), Heads(pool, nonces) - {m} + if next in pool then {pool[next]} else {};
    forall x | x in l ensures x in r {
      HeadKey(pool', nonces', x);
      if x.from != m.from { assert KeyOf(x) in pool; }
    }
    forall x | x in r ensures x in l {
      if next in pool && x == pool[next] {
        assert next in pool';
      } else {
        HeadKey(pool, nonces, x);
        assert KeyOf(x) in pool';
      }
    }
  }

  lemma {:induction false} RunExtend(pool: Pool, nonces: Nonces, run: seq<MemTx>, m: MemTx)
    requires DrainRun(pool, nonces, run) && IsBest(m, Heads(PoolAfter(pool, run), NoncesAfter(nonces, run)))
    ensures DrainRun(pool, nonces, run + [m])
    ensures PoolAfter(pool, run + [m]) == PoolAfter(pool, run) - {KeyOf(m)}
    ensures NoncesAfter(nonces, run + [m]) == NoncesAfter(nonces, run)[m.from := m.nonce]
    decreases |run|
  {
    if run == [] {
      assert run + [m] == [m] && [m][1..] == [];
    } else {
      var h := run[0];
      assert (run + [m])[1..] == run[1..] + [m];
      RunExtend(pool - {KeyOf(h)}, nonces[h.from := h.nonce], run[1..], m);
    }
  }

  // The part of a run that belongs to one account.
  function Lane(run: seq<MemTx>, a: Id): seq<MemTx> {
    if run == [] then [] else (if run[0].from == a then [run[0]] else []) + Lane(run[1..], a)
  }

  predicate At(pool: Pool, a: Id, n: nat, m: MemTx) { Key(a, n) in pool && pool[Key(a, n)] == m }

  // The account's entries from nonce `start` on begin with this sequence.
  ghost predicate Holds(pool: Pool, a: Id, start: nat, lane: seq<MemTx>) {
    forall i :: 0 <= i < |lane| ==> At(pool, a, start + i, lane[i])
  }

  // Each entry taken is its account's next, whatever it pays.
  ghost predicate HeadRun(pool: Pool, nonces: Nonces, run: seq<MemTx>)
    decreases |run|
  {
    run != [] ==>
      && KeyOf(run[0]) in pool && pool[KeyOf(run[0])] == run[0] && run[0].nonce == NonceOf(nonces, run[0].from) + 1
      && HeadRun(pool - {KeyOf(run[0])}, nonces[run[0].from := run[0].nonce], run[1..])
  }

  lemma {:induction false} DrainIsHeadRun(pool: Pool, nonces: Nonces, run: seq<MemTx>)
    requires KeyedPool(pool) && DrainRun(pool, nonces, run)
    ensures HeadRun(pool, nonces, run)
    decreases |run|
  {
    if run != [] {
      HeadKey(pool, nonces, run[0]);
      DrainIsHeadRun(pool - {KeyOf(run[0])}, nonces[run[0].from := run[0].nonce], run[1..]);
    }
  }

  // It moves the account on by one nonce.
  lemma {:induction false} LaneNonces(pool: Pool, nonces: Nonces, run: seq<MemTx>, a: Id)
    requires HeadRun(pool, nonces, run)
    ensures NonceOf(NoncesAfter(nonces, run), a) == NonceOf(nonces, a) + |Lane(run, a)|
    decreases |run|
  {
    if run != [] { LaneNonces(pool - {KeyOf(run[0])}, nonces[run[0].from := run[0].nonce], run[1..], a); }
  }

  lemma {:induction false} LaneEntry(pool: Pool, nonces: Nonces, run: seq<MemTx>, a: Id, i: nat)
    requires HeadRun(pool, nonces, run) && i < |Lane(run, a)|
    ensures At(pool, a, NonceOf(nonces, a) + 1 + i, Lane(run, a)[i])
    decreases |run|
  {
    var m := run[0];
    var pool', nonces' := pool - {KeyOf(m)}, nonces[m.from := m.nonce];
    if m.from != a {
      assert Lane(run, a) == Lane(run[1..], a);
      LaneEntry(pool', nonces', run[1..], a, i);
    } else if i > 0 {
      assert Lane(run, a)[i] == Lane(run[1..], a)[i - 1];
      LaneEntry(pool', nonces', run[1..], a, i - 1);
    }
  }

  lemma LaneHolds(pool: Pool, nonces: Nonces, run: seq<MemTx>, a: Id)
    requires HeadRun(pool, nonces, run)
    ensures Holds(pool, a, NonceOf(nonces, a) + 1, Lane(run, a))
  {
    var lane, start := Lane(run, a), NonceOf(nonces, a) + 1;
    forall i | 0 <= i < |lane| ensures At(pool, a, start + i, lane[i]) { LaneEntry(pool, nonces, run, a, i); }
  }

  // What lies beyond the nonces reached is still there.
  lemma {:induction false} StillThere(pool: Pool, nonces: Nonces, run: seq<MemTx>, k: Key)
    requires HeadRun(pool, nonces, run)
    requires k in pool && k.nonce > NonceOf(NoncesAfter(nonces, run), k.acct)
    ensures k in PoolAfter(pool, run) && PoolAfter(pool, run)[k] == pool[k]
    decreases |run|
  {
    if run != [] {
      var h := run[0];
      var pool', nonces' := pool - {KeyOf(h)}, nonces[h.from := h.nonce];
      LaneNonces(pool', nonces', run[1..], k.acct);
      StillThere(pool', nonces', run[1..], k);
    }
  }

  /** What a drain takes from one account is the contiguous run of its entries starting right
      after its state nonce, in order; and when the account has no head left, the whole of
      that run. */
  lemma DrainTakesLanes(pool: Pool, nonces: Nonces, run: seq<MemTx>, a: Id)
    requires KeyedPool(pool) && DrainRun(pool, nonces, run)
    ensures var lane, start := Lane(run, a), NonceOf(nonces, a) + 1;
            && Holds(pool, a, start, lane)
            && NonceOf(NoncesAfter(nonces, run), a) == start - 1 + |lane|
            && (Heads(PoolAfter(pool, run), NoncesAfter(nonces, run)) == {} ==> Key(a, start + |lane|) !in pool)
  {
    DrainIsHeadRun(pool, nonces, run);
    LaneNonces(pool, nonces, run, a);
    LaneHolds(pool, nonces, run, a);
    var next := Key(a, NonceOf(NoncesAfter(nonces, run), a) + 1);
    if next in pool {
      StillThere(pool, nonces, run, next);
      assert pool[next] in Heads(PoolAfter(pool, run), NoncesAfter(nonces, run));
    }
  }

  // ----- fees and sizes -----

  // The rate is the fee over the size.
  ghost predicate Fair(m: MemTx) { m.size > 0 && m.feeRate == m.fee as real / m.size as real }

  ghost predicate FairPool(pool: Pool) { forall k :: k in pool ==> Fair(pool[k]) }

  // Pays at least as much for its size, and where that is the same at least as much.
  predicate PaysNoLess(a: MemTx, b: MemTx) {
    a.fee * b.size >= b.fee * a.size && (a.fee * b.size == b.fee * a.size ==> a.fee >= b.fee)
  }

  lemma RateOrder(f: int, s: nat, g: int, t: nat)
    requires s > 0 && t > 0
    ensures f as real / s as real < g as real / t as real <==> f * t < g * s
    ensures f as real / s as real == g as real / t as real <==> f * t == g * s
  {
    var x, y, st := f as real / s as real, g as real / t as real, s as real * t as real;
    assert x * s as real == f as real && y * t as real == g as real;
    assert x * st == f as real * t as real == (f * t) as real;
    assert y * st == g as real * s as real == (g * s) as real;
    assert st > 0.0;
    assert x < y <==> x * st < y * st;
  }

  lemma NotBetterPaysNoMore(a: MemTx, b: MemTx)
    requires Fair(a) && Fair(b) && !Better(b, a)
    ensures PaysNoLess(a, b)
  {
    RateOrder(a.fee, a.size, b.fee, b.size);
    RateOrder(b.fee, b.size, a.fee, a.size);
  }

  lemma {:induction false} PoolAfterFair(pool: Pool, run: seq<MemTx>)
    requires FairPool(pool)
    ensures FairPool(PoolAfter(pool, run))
    decreases |run|
  {
    if run != [] { PoolAfterFair(pool - {KeyOf(run[0])}, run[1..]); }
  }

  /** Best payers first: whatever is taken pays, for its size, no less than any entry that could have
      been taken at that moment; and where the rates are equal, no lower fee. */
  lemma {:induction false} DrainTakesBestPayers(pool: Pool, nonces: Nonces, run: seq<MemTx>, i: nat, m: MemTx)
    requires KeyedPool(pool) && FairPool(pool) && DrainRun(pool, nonces, run) && i < |run|
    requires m in Heads(PoolAfter(pool, run[..i]), NoncesAfter(nonces, run[..i]))
    ensures run[i].fee * m.size >= m.fee * run[i].size
    ensures run[i].fee * m.size == m.fee * run[i].size ==> run[i].fee >= m.fee
    decreases i
  {
    HeadKey(pool, nonces, run[0]);
    if i == 0 {
      assert run[..0] == [];
      HeadKey(pool, nonces, m);
      NotBetterPaysNoMore(run[0], m);
    } else {
      var h := run[0];
      assert run[..i][0] == h && run[..i][1..] == run[1..][..i - 1];
      DrainTakesBestPayers(pool - {KeyOf(h)}, nonces[h.from := h.nonce], run[1..], i - 1, m);
    }
  }
}

/** What becomes of a drained nonce lane when a block is mined: the drain emits it in nonce order,
    and the filter sorts by fee before it checks nonces (MineOne in core/node/node.go). */
module Mining {
  import opened Wrappers
  import opened ChainTypes
  import opened LedgerSpec
  import opened NonceOrder
  import opened BlockAssembly
  import opened PoolSpec
  import opened Mempool

  // ----- one account's part of a list -----

  function Own(txs: seq<Tx>, a: Id): seq<Tx> {
    if txs == [] then [] else (if SpentBy(txs[0], a) then [txs[0]] else []) + Own(txs[1..], a)
  }

  lemma {:induction false} OwnNonces(txs: seq<Tx>, a: Id)
    ensures |NoncesOf(txs, a)| == |Own(txs, a)|
    ensures forall i :: 0 <= i < |Own(txs, a)| ==> NoncesOf(txs, a)[i] == Own(txs, a)[i].nonce
  {
    if txs != [] { OwnNonces(txs[1..], a); }
  }

  lemma {:induction false} OwnCount(txs: seq<Tx>, a: Id, t: Tx)
    ensures multiset(Own(txs, a))[t] == if SpentBy(t, a) then multiset(txs)[t] else 0
    decreases |txs|
  {
    if txs != [] {
      OwnCount(txs[1..], a, t);
      assert txs == [txs[0]] + txs[1..];
      assert multiset(txs) == multiset([txs[0]]) + multiset(txs[1..]);
      var head := if SpentBy(txs[0], a) then [txs[0]] else [];
      assert multiset(Own(txs, a)) == multiset(head) + multiset(Own(txs[1..], a));
    }
  }

  lemma OwnOfPermutation(xs: seq<Tx>, ys: seq<Tx>, a: Id)
    requires multiset(xs) == multiset(ys)
    ensures multiset(Own(xs, a)) == multiset(Own(ys, a))
  {
    forall t ensures multiset(Own(xs, a))[t] == multiset(Own(ys, a))[t] {
      OwnCount(xs, a, t);
      OwnCount(ys, a, t);
    }
  }

  // ----- the filter keeps a lane that comes in nonce order, and no other -----

  // In the filter, transactions of this account fail for their nonce only.
  ghost predicate Affordable(l: Ledger, txs: seq<Tx>, a: Id)
    decreases |txs|
  {
    txs != [] ==>
      match StepTx(l, txs[0])
      case Ok(l') => Affordable(l', txs[1..], a)
      case Err(e) => (SpentBy(txs[0], a) ==> e == BadNonce) && Affordable(l, txs[1..], a)
  }

  // The nonces following the account's own, in order.
  ghost predicate InNonceOrder(l: Ledger, lane: seq<Tx>, a: Id) {
    forall i :: 0 <= i < |lane| ==> lane[i].nonce == NonceOf(l.nonce, a) + 1 + i
  }

  lemma {:induction false} GreedyOwn(l: Ledger, txs: seq<Tx>, a: Id)
    ensures |Own(Greedy(l, txs), a)| <= |Own(txs, a)|
    ensures |Own(Greedy(l, txs), a)| == |Own(txs, a)| ==> Own(Greedy(l, txs), a) == Own(txs, a)
    decreases |txs|
  {
    if txs != [] {
      match StepTx(l, txs[0])
      case Err(_) => GreedyOwn(l, txs[1..], a);
      case Ok(l') =>
        GreedyOwn(l', txs[1..], a);
        assert Greedy(l, txs)[0] == txs[0] && Greedy(l, txs)[1..] == Greedy(l', txs[1..]);
    }
  }

  lemma KeptInNonceOrder(l: Ledger, txs: seq<Tx>, a: Id)
    ensures InNonceOrder(l, Own(Greedy(l, txs), a), a)
  {
    GreedySound(l, txs);
    RunNonces(l, Greedy(l, txs), a);
    OwnNonces(Greedy(l, txs), a);
  }

  lemma StepNonce(l: Ledger, tx: Tx, a: Id)
    requires StepTx(l, tx).Ok?
    ensures NonceOf(StepTx(l, tx).value.nonce, a) == NonceOf(l.nonce, a) + if SpentBy(tx, a) then 1 else 0
  {
  }

  lemma {:induction false} InOrderIsKept(l: Ledger, txs: seq<Tx>, a: Id)
    requires Affordable(l, txs, a) && InNonceOrder(l, Own(txs, a), a)
    ensures Own(Greedy(l, txs), a) == Own(txs, a)
    decreases |txs|
  {
    if txs != [] {
      var own, rest := Own(txs, a), Own(txs[1..], a);
      if SpentBy(txs[0], a) {
        assert own[0] == txs[0] && own[1..] == rest;
        assert own[0].nonce == NonceOf(l.nonce, a) + 1;
      }
      match StepTx(l, txs[0])
      case Err(_) =>
        assert own == rest;
        InOrderIsKept(l, txs[1..], a);
      case Ok(l') =>
        StepNonce(l, txs[0], a);
        forall i | 0 <= i < |rest| ensures rest[i].nonce == NonceOf(l'.nonce, a) + 1 + i {
          if SpentBy(txs[0], a) { assert rest[i] == own[i + 1]; } else { assert rest == own; }
        }
        InOrderIsKept(l', txs[1..], a);
        assert Greedy(l, txs)[0] == txs[0] && Greedy(l, txs)[1..] == Greedy(l', txs[1..]);
    }
  }

  // ----- the filter's order -----

  lemma {:induction false} LexTransitive(a: string, b: string, c: string)
    requires !LexLess(b, a) && !LexLess(c, b)
    ensures !LexLess(c, a)
    decreases |a|
  {
    if a != "" && b != "" && c != "" && a[0] == b[0] && b[0] == c[0] { LexTransitive(a[1..], b[1..], c[1..]); }
  }

  lemma {:induction false} LexEqual(a: string, b: string)
    requires !LexLess(a, b) && !LexLess(b, a)
    ensures a == b
    decreases |a|
  {
    if a != "" && b != "" {
      LexEqual(a[1..], b[1..]);
      assert a == [a[0]] + a[1..] && b == [b[0]] + b[1..];
    }
  }

  lemma BeforeTransitive(idOf: Tx -> string, x: Tx, y: Tx, z: Tx)
    requires !Before(idOf, y, x) && !Before(idOf, z, y)
    ensures !Before(idOf, z, x)
  {
    if x.fee == y.fee == z.fee { LexTransitive(idOf(x), idOf(y), idOf(z)); }
  }

  // No later entry comes before an earlier one.
  ghost predicate Sorted(idOf: Tx -> string, txs: seq<Tx>) {
    forall i, j :: 0 <= i < j < |txs| ==> !Before(idOf, txs[j], txs[i])
  }

  lemma {:induction false} InOrderSorted(idOf: Tx -> string, txs: seq<Tx>, i: nat, j: nat)
    requires InOrder(idOf, txs) && i < j < |txs|
    ensures !Before(idOf, txs[j], txs[i])
    decreases j
  {
    assert !Before(idOf, txs[(j - 1) + 1], txs[j - 1]);
    if i < j - 1 {
      InOrderSorted(idOf, txs, i, j - 1);
      BeforeTransitive(idOf, txs[i], txs[j - 1], txs[j]);
    }
  }

  lemma {:induction false} OwnMember(txs: seq<Tx>, a: Id, t: Tx)
    requires t in Own(txs, a)
    ensures t in txs
    decreases |txs|
  {
    if txs[0] != t || !SpentBy(txs[0], a) { OwnMember(txs[1..], a, t); }
  }

  lemma {:induction false} OwnSorted(idOf: Tx -> string, txs: seq<Tx>, a: Id)
    requires Sorted(idOf, txs)
    ensures Sorted(idOf, Own(txs, a))
    decreases |txs|
  {
    if txs != [] {
      OwnSorted(idOf, txs[1..], a);
      var own, rest := Own(txs, a), Own(txs[1..], a);
      forall i, j | 0 <= i < j < |own| ensures !Before(idOf, own[j], own[i]) {
        if SpentBy(txs[0], a) {
          assert own[j] == rest[j - 1];
          if i == 0 {
            OwnMember(txs[1..], a, own[j]);
          } else {
            assert own[i] == rest[i - 1];
          }
        } else {
          assert own == rest;
        }
      }
    }
  }

  // Different transactions of the list have different ids.
  ghost predicate DistinctIds(idOf: Tx -> string, txs: seq<Tx>) {
    forall i, j :: 0 <= i < |txs| && 0 <= j < |txs| && idOf(txs[i]) == idOf(txs[j]) ==> txs[i] == txs[j]
  }

  lemma {:induction false} LexIrreflexive(a: string)
    ensures !LexLess(a, a)
  {
    if a != "" { LexIrreflexive(a[1..]); }
  }

  lemma FirstIsLeast(idOf: Tx -> string, txs: seq<Tx>, t: Tx)
    requires Sorted(idOf, txs) && t in txs
    ensures !Before(idOf, t, txs[0])
  {
    var i :| 0 <= i < |txs| && txs[i] == t;
    LexIrreflexive(idOf(t));
  }

  lemma TieIsEqual(idOf: Tx -> string, txs: seq<Tx>, x: Tx, y: Tx)
    requires DistinctIds(idOf, txs) && x in txs && y in txs && !Before(idOf, x, y) && !Before(idOf, y, x)
    ensures x == y
  {
    LexEqual(idOf(x), idOf(y));
  }

  lemma {:induction false} SortedUnique(idOf: Tx -> string, xs: seq<Tx>, ys: seq<Tx>)
    requires Sorted(idOf, xs) && Sorted(idOf, ys) && multiset(xs) == multiset(ys) && DistinctIds(idOf, xs)
    ensures xs == ys
    decreases |xs|
  {
    assert |xs| == |multiset(xs)| == |ys|;
    if xs != [] {
      var x, y := xs[0], ys[0];
      assert y in multiset(xs) && x in multiset(ys);
      FirstIsLeast(idOf, xs, y);
      FirstIsLeast(idOf, ys, x);
      TieIsEqual(idOf, xs, x, y);
      SameTails(xs, ys);
      SortedUnique(idOf, xs[1..], ys[1..]);
      assert xs == [x] + xs[1..] && ys == [y] + ys[1..];
    }
  }

  lemma SameTails(xs: seq<Tx>, ys: seq<Tx>)
    requires xs != [] && ys != [] && xs[0] == ys[0] && multiset(xs) == multiset(ys)
    ensures multiset(xs[1..]) == multiset(ys[1..])
  {
    assert xs == [xs[0]] + xs[1..] && ys == [ys[0]] + ys[1..];
    assert multiset(xs[1..]) == multiset(xs) - multiset{xs[0]};
  }

  /** A lane that comes out of the drain in nonce order survives the filter whole exactly when
      the filter's order is that of its nonces: fees do not rise along it, and equal fees come
      in the order of the ids. */
  lemma LaneSurvivesIff(idOf: Tx -> string, l: Ledger, sorted: seq<Tx>, lane: seq<Tx>, a: Id)
    requires InOrder(idOf, sorted) && multiset(Own(sorted, a)) == multiset(lane)
    requires InNonceOrder(l, lane, a) && DistinctIds(idOf, lane) && Affordable(l, sorted, a)
    ensures Own(Greedy(l, sorted), a) == lane <==> InOrder(idOf, lane)
  {
    var own := Own(sorted, a);
    forall i, j | 0 <= i < j < |sorted| ensures !Before(idOf, sorted[j], sorted[i]) { InOrderSorted(idOf, sorted, i, j); }
    OwnSorted(idOf, sorted, a);
    if InOrder(idOf, lane) {
      forall i, j | 0 <= i < j < |lane| ensures !Before(idOf, lane[j], lane[i]) { InOrderSorted(idOf, lane, i, j); }
      SortedUnique(idOf, lane, own);
      InOrderIsKept(l, sorted, a);
    }
    if Own(Greedy(l, sorted), a) == lane {
      assert |lane| == |multiset(lane)| == |own|;
      GreedyOwn(l, sorted, a);
    }
  }

  lemma {:induction false} GreedyMember(l: Ledger, txs: seq<Tx>, t: Tx)
    requires t in Greedy(l, txs)
    ensures t in txs
    decreases |txs|
  {
    match StepTx(l, txs[0])
    case Err(_) => GreedyMember(l, txs[1..], t);
    case Ok(l') => if t != txs[0] { GreedyMember(l', txs[1..], t); }
  }

  /** Whole or not, what the filter keeps of a lane is a beginning of it. */
  lemma LaneKeepsPrefix(l: Ledger, sorted: seq<Tx>, lane: seq<Tx>, a: Id)
    requires multiset(Own(sorted, a)) == multiset(lane) && InNonceOrder(l, lane, a)
    ensures Own(Greedy(l, sorted), a) <= lane
  {
    var kept := Own(Greedy(l, sorted), a);
    KeptInNonceOrder(l, sorted, a);
    GreedyOwn(l, sorted, a);
    assert |lane| == |multiset(lane)| == |Own(sorted, a)|;
    forall i | 0 <= i < |kept| ensures kept[i] == lane[i] {
      KeptIsInLane(l, sorted, lane, a, kept[i]);
      var j :| 0 <= j < |lane| && lane[j] == kept[i];
      assert lane[j].nonce == NonceOf(l.nonce, a) + 1 + j && kept[i].nonce == NonceOf(l.nonce, a) + 1 + i;
    }
  }

  lemma KeptIsInLane(l: Ledger, sorted: seq<Tx>, lane: seq<Tx>, a: Id, t: Tx)
    requires multiset(Own(sorted, a)) == multiset(lane) && t in Own(Greedy(l, sorted), a)
    ensures t in lane
  {
    OwnMember(Greedy(l, sorted), a, t);
    GreedyMember(l, sorted, t);
    OwnCount(Greedy(l, sorted), a, t);
    OwnCount(sorted, a, t);
    assert t in multiset(Own(Greedy(l, sorted), a));
    assert t in multiset(sorted);
    assert t in multiset(lane);
  }

  // ----- from the pool to the block -----

  // Entries are spends filed under their own sender and nonce.
  ghost predicate Honest(pool: Pool) {
    forall k :: k in pool ==> pool[k].tx.txType != Coinbase && pool[k].tx.from == pool[k].from && pool[k].tx.nonce == pool[k].nonce
  }

  ghost predicate HonestRun(run: seq<MemTx>) {
    forall i :: 0 <= i < |run| ==> run[i].tx.txType != Coinbase && run[i].tx.from == run[i].from && run[i].tx.nonce == run[i].nonce
  }

  lemma {:induction false} RunIsHonest(pool: Pool, nonces: Nonces, run: seq<MemTx>)
    requires KeyedPool(pool) && Honest(pool) && DrainRun(pool, nonces, run)
    ensures HonestRun(run)
    ensures forall i :: 0 <= i < |run| ==> KeyOf(run[i]) in pool && KeyOf(run[i]) !in PoolAfter(pool, run)
    decreases |run|
  {
    if run != [] {
      var m := run[0];
      HeadKey(pool, nonces, m);
      var pool' := pool - {KeyOf(m)};
      RunIsHonest(pool', nonces[m.from := m.nonce], run[1..]);
      PoolShrinks(pool', run[1..]);
      forall i | 0 <= i < |run|
        ensures run[i].tx.txType != Coinbase && run[i].tx.from == run[i].from && run[i].tx.nonce == run[i].nonce
        ensures KeyOf(run[i]) in pool && KeyOf(run[i]) !in PoolAfter(pool, run)
      {
        if i > 0 { assert run[i] == run[1..][i - 1]; }
      }
    }
  }

  lemma {:induction false} PoolShrinks(pool: Pool, run: seq<MemTx>)
    ensures PoolAfter(pool, run).Keys <= pool.Keys
    decreases |run|
  {
    if run != [] { PoolShrinks(pool - {KeyOf(run[0])}, run[1..]); }
  }

  lemma {:induction false} OwnOfRun(run: seq<MemTx>, a: Id)
    requires HonestRun(run)
    ensures Own(Txs(run), a) == Txs(Lane(run, a))
    decreases |run|
  {
    if run != [] {
      OwnOfRun(run[1..], a);
      assert Txs(run)[0] == run[0].tx && Txs(run)[1..] == Txs(run[1..]);
    } else {
      assert Txs(run) == [];
    }
  }

  lemma DrainedInNonceOrder(pool: Pool, l: Ledger, run: seq<MemTx>, a: Id)
    requires KeyedPool(pool) && Honest(pool) && DrainRun(pool, l.nonce, run)
    ensures InNonceOrder(l, Txs(Lane(run, a)), a)
  {
    var lane, start := Lane(run, a), NonceOf(l.nonce, a) + 1;
    DrainTakesLanes(pool, l.nonce, run, a);
    forall i | 0 <= i < |lane| ensures lane[i].tx.nonce == start + i {
      assert At(pool, a, start + i, lane[i]);
      assert Key(a, start + i) in pool;
    }
  }

  /** Mining: of what is drained for an account, the filter keeps a beginning, and everything exactly
      when the fees do not rise along its nonces; and whatever it drops has left the pool as well. */
  lemma MinedLaneSurvivesIff(idOf: Tx -> string, pool: Pool, l: Ledger, run: seq<MemTx>, sorted: seq<Tx>, a: Id)
    requires KeyedPool(pool) && Honest(pool) && DrainRun(pool, l.nonce, run)
    requires multiset(sorted) == multiset(Txs(run)) && InOrder(idOf, sorted)
    requires DistinctIds(idOf, Txs(Lane(run, a))) && Affordable(l, sorted, a)
    ensures Own(Greedy(l, sorted), a) == Txs(Lane(run, a)) <==> InOrder(idOf, Txs(Lane(run, a)))
    ensures Own(Greedy(l, sorted), a) <= Txs(Lane(run, a))
    ensures forall i :: 0 <= i < |run| ==> KeyOf(run[i]) !in PoolAfter(pool, run)
  {
    var lane := Lane(run, a);
    RunIsHonest(pool, l.nonce, run);
    OwnOfRun(run, a);
    OwnOfPermutation(sorted, Txs(run), a);
    DrainedInNonceOrder(pool, l, run, a);
    LaneSurvivesIff(idOf, l, sorted, Txs(lane), a);
    LaneKeepsPrefix(l, sorted, Txs(lane), a);
  }

  // ----- a lane that does not survive -----

  // The spend of account "a" with this nonce; it pays the same number as its fee.
  function Rising(n: nat): Tx { Tx(1, "transfer", "a", "a", "s", n, n, "", [], None, "") }

  function Rich(): Ledger { Ledger(map["a" := 10], map[]) }

  function Roomy(): MempoolConfig { MempoolConfig(2, 1000000, 1, true, 1, 1.1) }

  lemma TwoDrained(m1: MemTx, m2: MemTx)
    requires m1.from == m2.from == "a" && m1.nonce == 1 && m2.nonce == 2
    ensures var pool: Pool := map[KeyOf(m1) := m1, KeyOf(m2) := m2];
            DrainRun(pool, Rich().nonce, [m1, m2]) && PoolAfter(pool, [m1, m2]) == map[]
  {
    var pool: Pool, none: Nonces := map[KeyOf(m1) := m1, KeyOf(m2) := m2], map[];
    var rest: Pool := map[KeyOf(m2) := m2];
    assert pool - {KeyOf(m1)} == rest && rest - {KeyOf(m2)} == map[];
    assert Heads(pool, none) == {m1} by { assert KeyOf(m1) in pool && pool[KeyOf(m1)] == m1; }
    assert Heads(rest, none["a" := 1]) == {m2} by { assert KeyOf(m2) in rest && rest[KeyOf(m2)] == m2; }
    assert [m1, m2][1..] == [m2] && [m2][1..] == [];
    assert DrainRun(rest, none["a" := 1], [m2]);
    assert PoolAfter(rest, [m2]) == PoolAfter(map[], [m2][1..]);
  }

  lemma SecondIsDropped()
    ensures Greedy(Rich(), [Rising(2), Rising(1)]) == [Rising(1)]
  {
    var l, both := Rich(), [Rising(2), Rising(1)];
    assert StepTx(l, Rising(2)).Err? && StepTx(l, Rising(1)).Ok?;
    assert both[1..] == [Rising(1)] && [Rising(1)][1..] == [];
    assert Greedy(StepTx(l, Rising(1)).value, [Rising(1)][1..]) == [];
    assert Greedy(l, [Rising(1)]) == [Rising(1)];
  }

  /** Two spends of one account with rising fees are both admitted to the pool and both drained, and
      the pool is empty; whatever the ids, the filter's order puts the second first, and keeps only
      the first. */
  lemma RisingFeesDrop(idOf: Tx -> string)
    ensures var m1, m2 := Entry(Rising(1), "x", 0), Entry(Rising(2), "y", 0);
            var p1: Pool, p2: Pool := map[KeyOf(m1) := m1], map[KeyOf(m1) := m1, KeyOf(m2) := m2];
            && Added(Roomy(), Rich().nonce, map[], m1, p1, Ok(false)) && Added(Roomy(), Rich().nonce, p1, m2, p2, Ok(false))
            && DrainRun(p2, Rich().nonce, [m1, m2]) && PoolAfter(p2, [m1, m2]) == map[] && Txs([m1, m2]) == [Rising(1), Rising(2)]
            && InOrder(idOf, [Rising(2), Rising(1)])
            && Greedy(Rich(), [Rising(2), Rising(1)]) == [Rising(1)]
  {
    var m1, m2 := Entry(Rising(1), "x", 0), Entry(Rising(2), "y", 0);
    var none: Pool, p1: Pool := map[], map[KeyOf(m1) := m1];
    SumSizesPut(none, KeyOf(m1), m1);
    assert none[KeyOf(m1) := m1] == p1;
    assert p1[KeyOf(m2) := m2] == map[KeyOf(m1) := m1, KeyOf(m2) := m2];
    TwoDrained(m1, m2);
    SecondIsDropped();
  }
}

/** Block assembly (core/node/block_assemble.go and the coinbase step of MineOne). */
module BlockAssembly {
  import opened Wrappers
  import opened ChainTypes
  import opened LedgerSpec
  import opened Storage
  import opened Simulation

  // ----- extra balance on one account -----

  // `richer` reads like `l` everywhere, except that account `to` holds `extra` more.
  ghost predicate Shifted(l: Ledger, richer: Ledger, to: Id, extra: int) {
    && (forall id :: Balance(richer.bal, id) == Balance(l.bal, id) + if id == to then extra else 0)
    && (forall id :: NonceOf(richer.nonce, id) == NonceOf(l.nonce, id))
  }

  lemma CreditShift(l: Ledger, richer: Ledger, to: Id, extra: int, id: Id, v: int)
    requires Shifted(l, richer, to, extra)
    ensures Shifted(l.(bal := Credit(l.bal, id, v)), richer.(bal := Credit(richer.bal, id, v)), to, extra)
  {
    forall x ensures Balance(Credit(richer.bal, id, v), x) == Balance(Credit(l.bal, id, v), x) + if x == to then extra else 0 {
      assert Balance(richer.bal, x) == Balance(l.bal, x) + if x == to then extra else 0;
    }
  }

  lemma NonceShift(l: Ledger, richer: Ledger, to: Id, extra: int, id: Id, n: nat)
    requires Shifted(l, richer, to, extra)
    ensures Shifted(SetNonceIn(l, id, n), SetNonceIn(richer, id, n), to, extra)
  {
    var l1, r1 := SetNonceIn(l, id, n), SetNonceIn(richer, id, n);
    forall x ensures NonceOf(r1.nonce, x) == NonceOf(l1.nonce, x) {
      assert NonceOf(richer.nonce, x) == NonceOf(l.nonce, x);
    }
  }

  lemma {:induction false} CreditsShift(l: Ledger, richer: Ledger, to: Id, extra: int, outs: seq<TxOut>)
    requires Shifted(l, richer, to, extra)
    ensures Shifted(l.(bal := CreditAll(l.bal, outs)), richer.(bal := CreditAll(richer.bal, outs)), to, extra)
    decreases |outs|
  {
    if outs != [] {
      var o := outs[0];
      if Destination(o).Some? { CreditShift(l, richer, to, extra, Destination(o).value, o.amount); }
      CreditsShift(l.(bal := CreditOut(l.bal, o)), richer.(bal := CreditOut(richer.bal, o)), to, extra, outs[1..]);
    }
  }

  lemma {:induction false} MintShift(l: Ledger, richer: Ledger, to: Id, extra: int, outs: seq<TxOut>)
    requires Shifted(l, richer, to, extra)
    ensures Shifted(l.(bal := MintAll(l.bal, outs)), richer.(bal := MintAll(richer.bal, outs)), to, extra)
    decreases |outs|
  {
    if outs != [] {
      var id, v := outs[0].address, outs[0].amount;
      CreditShift(l, richer, to, extra, id, v);
      MintShift(l.(bal := Credit(l.bal, id, v)), richer.(bal := Credit(richer.bal, id, v)), to, extra, outs[1..]);
    }
  }

  lemma ClaimShift(l: Ledger, richer: Ledger, to: Id, extra: nat, tx: Tx)
    requires Shifted(l, richer, to, extra) && tx.txType != Coinbase && IsClaim(tx) && StepTx(l, tx).Ok?
    ensures StepTx(richer, tx).Ok?
    ensures Shifted(StepTx(l, tx).value, StepTx(richer, tx).value, to, extra)
  {
    assert NonceOf(richer.nonce, tx.from) == NonceOf(l.nonce, tx.from);
    NonceShift(l, richer, to, extra, tx.from, tx.nonce);
    var l1, r1 := SetNonceIn(l, tx.from, tx.nonce), SetNonceIn(richer, tx.from, tx.nonce);
    var c := tx.claim.value;
    var src, need := Bucket(c.p), c.amount + tx.fee;
    assert Balance(richer.bal, src) >= Balance(l.bal, src);
    CreditShift(l1, r1, to, extra, src, -need);
    CreditShift(l1.(bal := Credit(l.bal, src, -need)), r1.(bal := Credit(richer.bal, src, -need)), to, extra, c.to, c.amount);
  }

  lemma TransferShift(l: Ledger, richer: Ledger, to: Id, extra: nat, tx: Tx)
    requires Shifted(l, richer, to, extra) && tx.txType != Coinbase && !IsClaim(tx) && StepTx(l, tx).Ok?
    ensures StepTx(richer, tx).Ok?
    ensures Shifted(StepTx(l, tx).value, StepTx(richer, tx).value, to, extra)
  {
    assert NonceOf(richer.nonce, tx.from) == NonceOf(l.nonce, tx.from);
    NonceShift(l, richer, to, extra, tx.from, tx.nonce);
    var l1, r1 := SetNonceIn(l, tx.from, tx.nonce), SetNonceIn(richer, tx.from, tx.nonce);
    var src, need := tx.from, OutTotal(tx.outputs) + tx.fee;
    assert Balance(richer.bal, src) >= Balance(l.bal, src);
    CreditShift(l1, r1, to, extra, src, -need);
    CreditsShift(l1.(bal := Credit(l.bal, src, -need)), r1.(bal := Credit(richer.bal, src, -need)), to, extra, tx.outputs);
  }

  lemma StepShift(l: Ledger, richer: Ledger, to: Id, extra: nat, tx: Tx)
    requires Shifted(l, richer, to, extra) && StepTx(l, tx).Ok?
    ensures StepTx(richer, tx).Ok?
    ensures Shifted(StepTx(l, tx).value, StepTx(richer, tx).value, to, extra)
  {
    if tx.txType == Coinbase {
      MintShift(l, richer, to, extra, tx.outputs);
    } else if IsClaim(tx) {
      ClaimShift(l, richer, to, extra, tx);
    } else {
      TransferShift(l, richer, to, extra, tx);
    }
  }

  /** Extra starting balance never invalidates a valid sequence, and it is carried through
      the whole sequence unchanged. */
  lemma {:induction false} RunShift(l: Ledger, richer: Ledger, to: Id, extra: nat, txs: seq<Tx>)
    requires Shifted(l, richer, to, extra) && RunTxs(l, txs).Ok?
    ensures RunTxs(richer, txs).Ok?
    ensures Shifted(RunTxs(l, txs).value, RunTxs(richer, txs).value, to, extra)
    decreases |txs|
  {
    if txs != [] {
      StepShift(l, richer, to, extra, txs[0]);
      RunShift(StepTx(l, txs[0]).value, StepTx(richer, txs[0]).value, to, extra, txs[1..]);
    }
  }

  // Ledgers that read alike are treated alike, whatever zeros they store.
  lemma StepSame(l: Ledger, same: Ledger, tx: Tx)
    requires Shifted(l, same, "", 0)
    ensures StepTx(l, tx).Ok? == StepTx(same, tx).Ok?
    ensures StepTx(l, tx).Ok? ==> Shifted(StepTx(l, tx).value, StepTx(same, tx).value, "", 0)
  {
    if StepTx(l, tx).Ok? { StepShift(l, same, "", 0, tx); }
    if StepTx(same, tx).Ok? {
      assert Shifted(same, l, "", 0);
      StepShift(same, l, "", 0, tx);
    }
  }

  // ----- the greedy filter -----

  // Keep, in order, each transaction that is valid after those already kept.
  function Greedy(l: Ledger, txs: seq<Tx>): seq<Tx>
    decreases |txs|
  {
    if txs == [] then []
    else match StepTx(l, txs[0])
         case Err(_) => Greedy(l, txs[1..])
         case Ok(l') => [txs[0]] + Greedy(l', txs[1..])
  }

  lemma {:induction false} GreedySound(l: Ledger, txs: seq<Tx>)
    ensures RunTxs(l, Greedy(l, txs)).Ok?
    decreases |txs|
  {
    if txs != [] {
      match StepTx(l, txs[0])
      case Err(_) => GreedySound(l, txs[1..]);
      case Ok(l') =>
        GreedySound(l', txs[1..]);
        assert Greedy(l, txs)[1..] == Greedy(l', txs[1..]);
    }
  }

  lemma {:induction false} GreedyKeepsValid(l: Ledger, txs: seq<Tx>)
    requires RunTxs(l, txs).Ok?
    ensures Greedy(l, txs) == txs
    decreases |txs|
  {
    if txs != [] { GreedyKeepsValid(StepTx(l, txs[0]).value, txs[1..]); }
  }

  /** One more transaction is kept exactly when the simulation accepts it after all that was kept
      before it, and what was kept before does not change. */
  lemma {:induction false} GreedyAppend(l: Ledger, txs: seq<Tx>, t: Tx)
    ensures RunTxs(l, Greedy(l, txs)).Ok?
    ensures Greedy(l, txs + [t]) ==
            Greedy(l, txs) + if StepTx(RunTxs(l, Greedy(l, txs)).value, t).Ok? then [t] else []
    decreases |txs|
  {
    GreedySound(l, txs);
    if txs == [] {
      assert txs + [t] == [t] && [t][1..] == [];
    } else {
      assert (txs + [t])[1..] == txs[1..] + [t];
      match StepTx(l, txs[0])
      case Err(_) => GreedyAppend(l, txs[1..], t);
      case Ok(l') =>
        GreedyAppend(l', txs[1..], t);
        assert Greedy(l, txs)[1..] == Greedy(l', txs[1..]);
    }
  }

  /** Filtering drops nothing from its own output, and drops something from every input that
      the block simulation would reject. */
  lemma GreedyFixpoint(l: Ledger, txs: seq<Tx>)
    ensures Greedy(l, Greedy(l, txs)) == Greedy(l, txs)
    ensures Greedy(l, txs) == txs <==> RunTxs(l, txs).Ok?
  {
    GreedySound(l, txs);
    GreedyKeepsValid(l, Greedy(l, txs));
    if RunTxs(l, txs).Ok? { GreedyKeepsValid(l, txs); }
  }

  /** Whatever the filter keeps, with any one-output coinbase of a non-negative amount in
      front, passes the block simulation; and the coinbase leaves its whole amount behind. */
  lemma AssemblySound(l: Ledger, txs: seq<Tx>, cb: Tx)
    requires cb.txType == Coinbase && |cb.outputs| == 1 && cb.outputs[0].amount >= 0
    ensures RunTxs(l, Greedy(l, txs)).Ok? && RunTxs(l, [cb] + Greedy(l, txs)).Ok?
    ensures Shifted(RunTxs(l, Greedy(l, txs)).value, RunTxs(l, [cb] + Greedy(l, txs)).value,
                    cb.outputs[0].address, cb.outputs[0].amount)
  {
    var kept, o := Greedy(l, txs), cb.outputs[0];
    GreedySound(l, txs);
    var paid := StepTx(l, cb).value;
    assert cb.outputs[1..] == [];
    assert MintAll(l.bal, cb.outputs) == MintAll(Credit(l.bal, o.address, o.amount), cb.outputs[1..]);
    assert Shifted(l, paid, o.address, o.amount);
    RunShift(l, paid, o.address, o.amount, kept);
    assert ([cb] + kept)[0] == cb && ([cb] + kept)[1..] == kept;
  }

  // ----- the order the filter works in -----

  predicate LexLess(a: string, b: string) {
    b != "" && (a == "" || a[0] < b[0] || (a[0] == b[0] && LexLess(a[1..], b[1..])))
  }

  // Higher fee first, then smaller transaction id.
  predicate Before(idOf: Tx -> string, a: Tx, b: Tx) {
    if a.fee != b.fee then a.fee > b.fee else LexLess(idOf(a), idOf(b))
  }

  predicate InOrder(idOf: Tx -> string, txs: seq<Tx>) {
    forall i :: 0 <= i < |txs| - 1 ==> !Before(idOf, txs[i + 1], txs[i])
  }

  // At position i the two first differ, or the first one ends there.
  ghost predicate DiffersAt(a: string, b: string, i: nat) {
    i <= |a| && i < |b| && a[..i] == b[..i] && (i == |a| || a[i] < b[i])
  }

  ghost predicate Precedes(a: string, b: string) { exists i :: DiffersAt(a, b, i) }

  /** The order of ids is the usual one on strings: smaller at the first difference, or a proper
      beginning. */
  lemma {:induction false} LexLessIff(a: string, b: string)
    ensures LexLess(a, b) <==> Precedes(a, b)
    decreases |a|
  {
    if b != "" {
      if a == "" || a[0] < b[0] {
        assert DiffersAt(a, b, 0);
      } else {
        LexLessIff(a[1..], b[1..]);
        if a[0] == b[0] && LexLess(a[1..], b[1..]) {
          var i: nat :| DiffersAt(a[1..], b[1..], i);
          assert a[..i + 1] == [a[0]] + a[1..][..i] && b[..i + 1] == [b[0]] + b[1..][..i];
          assert DiffersAt(a, b, i + 1);
        }
        if i: nat :| DiffersAt(a, b, i) {
          assert i > 0 && a[..i][0] == b[..i][0];
          assert a[1..][..i - 1] == a[..i][1..] && b[1..][..i - 1] == b[..i][1..];
          assert DiffersAt(a[1..], b[1..], i - 1);
        }
      }
    }
  }

  /** In the filter's order fees never rise, and between neighbours of equal fee the later id is not
      the smaller one. */
  lemma InOrderMeans(idOf: Tx -> string, txs: seq<Tx>)
    ensures InOrder(idOf, txs) <==> forall i :: 0 <= i < |txs| - 1 ==>
            && txs[i].fee >= txs[i + 1].fee
            && (txs[i].fee == txs[i + 1].fee ==> !Precedes(idOf(txs[i + 1]), idOf(txs[i])))
  {
    forall i | 0 <= i < |txs| - 1
      ensures !Before(idOf, txs[i + 1], txs[i]) <==>
              && txs[i].fee >= txs[i + 1].fee
              && (txs[i].fee == txs[i + 1].fee ==> !Precedes(idOf(txs[i + 1]), idOf(txs[i])))
    {
      LexLessIff(idOf(txs[i + 1]), idOf(txs[i]));
    }
  }

  lemma {:induction false} LexAsymmetric(a: string, b: string)
    requires LexLess(a, b)
    ensures !LexLess(b, a)
  {
    if a != "" && a[0] == b[0] { LexAsymmetric(a[1..], b[1..]); }
  }

  lemma InsertKeepsOrder(idOf: Tx -> string, s: seq<Tx>, x: Tx, j: nat, r: seq<Tx>)
    requires InOrder(idOf, s) && j <= |s| && r == s[..j] + [x] + s[j..]
    requires j > 0 ==> !Before(idOf, x, s[j - 1])
    requires j < |s| ==> Before(idOf, x, s[j])
    ensures InOrder(idOf, r)
  {
    if j < |s| && x.fee == s[j].fee { LexAsymmetric(idOf(x), idOf(s[j])); }
    forall i | 0 <= i < |r| - 1 ensures !Before(idOf, r[i + 1], r[i]) {
      if i + 1 < j {
        assert r[i] == s[i] && r[i + 1] == s[i + 1];
      } else if i > j {
        assert r[i] == s[i - 1] && r[i + 1] == s[(i - 1) + 1];
      }
    }
  }

  lemma InsertIsPermutation(s: seq<Tx>, x: Tx, j: nat)
    requires j <= |s|
    ensures multiset(s[..j] + [x] + s[j..]) == multiset(s + [x])
  {
    assert s == s[..j] + s[j..];
  }

  method InsertByFee(idOf: Tx -> string, s: seq<Tx>, x: Tx) returns (r: seq<Tx>)
    requires InOrder(idOf, s)
    ensures InOrder(idOf, r) && multiset(r) == multiset(s + [x])
  {
    var j := |s|;
    while j > 0 && Before(idOf, x, s[j - 1])
      invariant 0 <= j <= |s|
      invariant j < |s| ==> Before(idOf, x, s[j])
    {
      j := j - 1;
    }
    r := s[..j] + [x] + s[j..];
    InsertKeepsOrder(idOf, s, x, j, r);
    InsertIsPermutation(s, x, j);
  }

  method SortByFee(idOf: Tx -> string, txs: seq<Tx>) returns (out: seq<Tx>)
    ensures multiset(out) == multiset(txs)
    ensures InOrder(idOf, out)
  {
    out := [];
    for i := 0 to |txs|
      invariant multiset(out) == multiset(txs[..i])
      invariant InOrder(idOf, out)
    {
      assert txs[..i + 1] == txs[..i] + [txs[i]];
      out := InsertByFee(idOf, out, txs[i]);
    }
    assert txs[..|txs|] == txs;
  }

  // ----- the filter itself, on overlays over the database -----

  // Remembering a value that was just read changes nothing that can be read later.
  lemma MemoReadsAlike(l: Ledger, id: Id, a: Id)
    ensures Shifted(l, Ledger(l.bal[id := Balance(l.bal, id)], l.nonce[a := NonceOf(l.nonce, a)]), "", 0)
    ensures Shifted(l, l.(nonce := l.nonce[a := NonceOf(l.nonce, a)]), "", 0)
  {
  }

  method FilterSpend(db: Db, bal0: Balances, non0: Nonces, tx: Tx)
    returns (kept: bool, bal: Balances, non: Nonces)
    requires tx.txType != Coinbase
    ensures kept == StepTx(Seen(db, bal0, non0), tx).Ok?
    ensures if kept then StepTx(Seen(db, bal0, non0), tx).value == Seen(db, bal, non)
            else Shifted(Seen(db, bal0, non0), Seen(db, bal, non), "", 0)
  {
    var cur := if tx.from in non0 then non0[tx.from] else NonceOf(db.nonce, tx.from);
    bal, non := bal0, non0[tx.from := cur];
    var src := if tx.txType == Claim && tx.claim.Some? then Bucket(tx.claim.value.p) else tx.from;
    MemoReadsAlike(Seen(db, bal0, non0), src, tx.from);
    OverlaySet(db.nonce, non0, tx.from, cur);
    if tx.nonce != cur + 1 { kept := false; return; }
    OverlaySet(db.nonce, non0, tx.from, tx.nonce);
    OverlaySet(db.bal, bal0, src, Balance(db.bal + bal0, src));
    if tx.txType == Claim && tx.claim.Some? {
      var c := tx.claim.value;
      kept, bal := OverlayDebit(db, bal, src, c.amount + tx.fee);
      if !kept { return; }
      bal := OverlayCredit(db, bal, c.to, c.amount);
    } else {
      var outTotal := SumOutputs(tx.outputs);
      kept, bal := OverlayDebit(db, bal, src, outTotal + tx.fee);
      if !kept { return; }
      bal := OverlayCredits(db, bal, tx.outputs);
    }
    non := non0[tx.from := tx.nonce];
  }

  method FilterMint(db: Db, bal0: Balances, outs: seq<TxOut>) returns (bal: Balances)
    ensures db.bal + bal == MintAll(db.bal + bal0, outs)
  {
    bal := bal0;
    for i := 0 to |outs|
      invariant MintAll(db.bal + bal, outs[i..]) == MintAll(db.bal + bal0, outs)
    {
      assert outs[i..][1..] == outs[i + 1..];
      bal := OverlayCredit(db, bal, outs[i].address, outs[i].amount);
    }
  }

  // One transaction of the filter loop: `l` is the ledger the overlays read like.
  method FilterStep(db: Db, bal0: Balances, non0: Nonces, tx: Tx, ghost l: Ledger)
    returns (kept: bool, bal: Balances, non: Nonces, ghost l': Ledger)
    requires Shifted(l, Seen(db, bal0, non0), "", 0)
    ensures kept == StepTx(l, tx).Ok? && l' == if kept then StepTx(l, tx).value else l
    ensures Shifted(l', Seen(db, bal, non), "", 0)
  {
    StepSame(l, Seen(db, bal0, non0), tx);
    if tx.txType == Coinbase {
      kept, non := true, non0;
      bal := FilterMint(db, bal0, tx.outputs);
    } else {
      kept, bal, non := FilterSpend(db, bal0, non0, tx);
    }
    l' := if kept then StepTx(l, tx).value else l;
  }

  /** The filter sorts by fee and keeps greedily, judging each transaction on the database's
      ledger as changed by those kept before; its memoised reads make no difference. */
  method FilterTxsBySimState(db: Db, idOf: Tx -> string, txs: seq<Tx>) returns (sorted: seq<Tx>, out: seq<Tx>)
    ensures multiset(sorted) == multiset(txs) && InOrder(idOf, sorted)
    ensures out == Greedy(LedgerOf(db), sorted)
  {
    sorted := SortByFee(idOf, txs);
    out := FilterInOrder(db, sorted);
  }

  method FilterInOrder(db: Db, txs: seq<Tx>) returns (out: seq<Tx>)
    ensures out == Greedy(LedgerOf(db), txs)
  {
    var bal: Balances, non: Nonces := map[], map[];
    out := [];
    ghost var l := LedgerOf(db);
    for i := 0 to |txs|
      invariant out == Greedy(LedgerOf(db), txs[..i]) && RunTxs(LedgerOf(db), out) == Ok(l)
      invariant Shifted(l, Seen(db, bal, non), "", 0)
    {
      var kept;
      GreedyAppend(LedgerOf(db), txs[..i], txs[i]);
      RunAppend(LedgerOf(db), out, txs[i]);
      assert txs[..i + 1] == txs[..i] + [txs[i]];
      kept, bal, non, l := FilterStep(db, bal, non, txs[i], l);
      if kept { out := out + [txs[i]]; }
    }
    assert txs[..|txs|] == txs;
  }

  lemma {:induction false} RunAppend(l: Ledger, txs: seq<Tx>, t: Tx)
    requires RunTxs(l, txs).Ok?
    ensures RunTxs(l, txs + [t]) == StepTx(RunTxs(l, txs).value, t)
    decreases |txs|
  {
    if txs == [] {
      assert txs + [t] == [t] && [t][1..] == [];
      var r := StepTx(l, t);
      if r.Ok? { assert RunTxs(r.value, [t][1..]) == r; }
    } else {
      assert (txs + [t])[1..] == txs[1..] + [t];
      RunAppend(StepTx(l, txs[0]).value, txs[1..], t);
    }
  }
}

/** Replay freedom: what the simulations' nonce rule guarantees over chains of blocks in which
    each block is run from the ledger the previous one left. Which chains of the node are of
    that kind is the subject of module FastPath. */
module NonceOrder {
  import opened Wrappers
  import opened ChainTypes
  import opened LedgerSpec

  predicate SpentBy(tx: Tx, a: Id) { tx.txType != Coinbase && tx.from == a }

  // The nonces account `a` uses, in order.
  function NoncesOf(txs: seq<Tx>, a: Id): seq<nat> {
    if txs == [] then []
    else (if SpentBy(txs[0], a) then [txs[0].nonce] else []) + NoncesOf(txs[1..], a)
  }

  function Flatten(blocks: seq<Block>): seq<Tx> {
    if blocks == [] then [] else blocks[0].txs + Flatten(blocks[1..])
  }

  // Every block is run from the ledger the previous one left.
  function RunBlocks(l: Ledger, blocks: seq<Block>): Result<Ledger, LedgerError>
    decreases |blocks|
  {
    if blocks == [] then Ok(l)
    else match RunTxs(l, blocks[0].txs)
         case Err(e) => Err(e)
         case Ok(l') => RunBlocks(l', blocks[1..])
  }

  lemma {:induction false} RunConcat(l: Ledger, xs: seq<Tx>, ys: seq<Tx>)
    ensures RunTxs(l, xs + ys) ==
            match RunTxs(l, xs) case Err(e) => Err(e) case Ok(l') => RunTxs(l', ys)
    decreases |xs|
  {
    if xs == [] {
      assert xs + ys == ys;
    } else {
      assert (xs + ys)[1..] == xs[1..] + ys;
      if StepTx(l, xs[0]).Ok? { RunConcat(StepTx(l, xs[0]).value, xs[1..], ys); }
    }
  }

  lemma {:induction false} RunBlocksFlat(l: Ledger, blocks: seq<Block>)
    ensures RunBlocks(l, blocks) == RunTxs(l, Flatten(blocks))
    decreases |blocks|
  {
    if blocks != [] {
      RunConcat(l, blocks[0].txs, Flatten(blocks[1..]));
      if RunTxs(l, blocks[0].txs).Ok? { RunBlocksFlat(RunTxs(l, blocks[0].txs).value, blocks[1..]); }
    }
  }

  lemma {:induction false} RunNonces(l: Ledger, txs: seq<Tx>, a: Id)
    requires RunTxs(l, txs).Ok?
    ensures var ns, start := NoncesOf(txs, a), NonceOf(l.nonce, a);
            && NonceOf(RunTxs(l, txs).value.nonce, a) == start + |ns|
            && forall k :: 0 <= k < |ns| ==> ns[k] == start + 1 + k
    decreases |txs|
  {
    if txs != [] {
      var l' := StepTx(l, txs[0]).value;
      RunNonces(l', txs[1..], a);
      assert NonceOf(l'.nonce, a) == NonceOf(l.nonce, a) + (if SpentBy(txs[0], a) then 1 else 0);
    }
  }

  /** Over any chain of blocks accepted one on the ledger of the other, an account's nonces are
      exactly the numbers following its starting nonce, each once and in order. */
  lemma ChainNoncesConsecutive(l: Ledger, blocks: seq<Block>, a: Id)
    requires RunBlocks(l, blocks).Ok?
    ensures var ns, start := NoncesOf(Flatten(blocks), a), NonceOf(l.nonce, a);
            && NonceOf(RunBlocks(l, blocks).value.nonce, a) == start + |ns|
            && forall k :: 0 <= k < |ns| ==> ns[k] == start + 1 + k
  {
    RunBlocksFlat(l, blocks);
    RunNonces(l, Flatten(blocks), a);
  }

  lemma {:induction false} LaterNonceIsHigher(l: Ledger, txs: seq<Tx>, i: nat, a: Id)
    requires RunTxs(l, txs).Ok? && i < |txs| && SpentBy(txs[i], a)
    ensures txs[i].nonce > NonceOf(l.nonce, a)
    decreases i
  {
    var l' := StepTx(l, txs[0]).value;
    if i > 0 { LaterNonceIsHigher(l', txs[1..], i - 1, a); }
  }

  /** Along such a chain no (sender, nonce) pair occurs twice, in one block or across blocks. */
  lemma {:induction false} NoReplay(l: Ledger, txs: seq<Tx>, i: nat, j: nat)
    requires RunTxs(l, txs).Ok? && i < j < |txs|
    requires txs[i].txType != Coinbase && SpentBy(txs[j], txs[i].from)
    ensures txs[i].nonce < txs[j].nonce
    decreases i
  {
    var l' := StepTx(l, txs[0]).value;
    if i == 0 {
      LaterNonceIsHigher(l', txs[1..], j - 1, txs[0].from);
    } else {
      NoReplay(l', txs[1..], i - 1, j - 1);
    }
  }

  // ----- on top of an ancestry that the ledger may not have seen -----

  // Of two spends of one sender the later one has the higher nonce.
  ghost predicate ReplayFree(txs: seq<Tx>) {
    forall i, j :: 0 <= i < j < |txs| && txs[i].txType != Coinbase && SpentBy(txs[j], txs[i].from) ==> txs[i].nonce < txs[j].nonce
  }

  // For every sender of `txs` the ledger has seen whatever the sender spent in `anc`.
  ghost predicate CaughtUp(l: Ledger, anc: seq<Tx>, txs: seq<Tx>) {
    forall i, j :: 0 <= i < |anc| && 0 <= j < |txs| && anc[i].txType != Coinbase && SpentBy(txs[j], anc[i].from) ==>
      anc[i].nonce <= NonceOf(l.nonce, anc[i].from)
  }

  // The first spend of an account continues its nonce in the ledger.
  lemma {:induction false} FirstUse(l: Ledger, txs: seq<Tx>, j: nat, a: Id)
    requires RunTxs(l, txs).Ok? && j < |txs| && SpentBy(txs[j], a)
    ensures exists f :: 0 <= f < |txs| && SpentBy(txs[f], a) && txs[f].nonce == NonceOf(l.nonce, a) + 1
    decreases j
  {
    if !SpentBy(txs[0], a) {
      var rest := txs[1..];
      FirstUse(StepTx(l, txs[0]).value, rest, j - 1, a);
      var g :| 0 <= g < |rest| && SpentBy(rest[g], a) && rest[g].nonce == NonceOf(l.nonce, a) + 1;
      assert txs[g + 1] == rest[g];
    }
  }

  lemma AppendedCaughtUp(l: Ledger, anc: seq<Tx>, txs: seq<Tx>)
    requires RunTxs(l, txs).Ok? && ReplayFree(anc + txs)
    ensures ReplayFree(anc) && CaughtUp(l, anc, txs)
  {
    var all := anc + txs;
    forall i, j | 0 <= i < j < |anc| && anc[i].txType != Coinbase && SpentBy(anc[j], anc[i].from) ensures anc[i].nonce < anc[j].nonce {
      assert all[i] == anc[i] && all[j] == anc[j];
    }
    forall i, j | 0 <= i < |anc| && 0 <= j < |txs| && anc[i].txType != Coinbase && SpentBy(txs[j], anc[i].from)
      ensures anc[i].nonce <= NonceOf(l.nonce, anc[i].from)
    {
      FirstUse(l, txs, j, anc[i].from);
      var f :| 0 <= f < |txs| && SpentBy(txs[f], anc[i].from) && txs[f].nonce == NonceOf(l.nonce, anc[i].from) + 1;
      assert all[i] == anc[i] && all[|anc| + f] == txs[f];
    }
  }

  /** A block that runs on a ledger, appended to an ancestry which that ledger need not have seen,
      replays nothing exactly when the ancestry was free of replays and the ledger's nonce of every
      sender is at least each nonce it used there. */
  lemma AppendReplayFreeIff(l: Ledger, anc: seq<Tx>, txs: seq<Tx>)
    requires RunTxs(l, txs).Ok?
    ensures ReplayFree(anc + txs) <==> ReplayFree(anc) && CaughtUp(l, anc, txs)
  {
    var all := anc + txs;
    if ReplayFree(all) { AppendedCaughtUp(l, anc, txs); }
    if ReplayFree(anc) && CaughtUp(l, anc, txs) {
      forall i, j | 0 <= i < j < |all| && all[i].txType != Coinbase && SpentBy(all[j], all[i].from) ensures all[i].nonce < all[j].nonce {
        if i >= |anc| {
          NoReplay(l, txs, i - |anc|, j - |anc|);
        } else if j >= |anc| {
          assert all[i] == anc[i] && all[j] == txs[j - |anc|];
          LaterNonceIsHigher(l, txs, j - |anc|, anc[i].from);
        }
      }
    }
  }

  // ----- blocks all judged on one ledger -----

  ghost predicate Uses(txs: seq<Tx>, a: Id) { exists t :: t in txs && SpentBy(t, a) }

  // No account spends in two of the blocks.
  ghost predicate OncePerBlock(bs: seq<Block>) {
    forall i, j, a :: 0 <= i < j < |bs| && Uses(bs[i].txs, a) ==> !Uses(bs[j].txs, a)
  }

  lemma {:induction false} InFlatten(bs: seq<Block>, t: Tx)
    ensures t in Flatten(bs) <==> exists i :: 0 <= i < |bs| && t in bs[i].txs
    decreases |bs|
  {
    if bs != [] {
      InFlatten(bs[1..], t);
      if t in Flatten(bs[1..]) {
        var i :| 0 <= i < |bs[1..]| && t in bs[1..][i].txs;
        assert t in bs[i + 1].txs;
      }
      if i :| 0 <= i < |bs| && t in bs[i].txs {
        if i > 0 { assert t in bs[1..][i - 1].txs; }
      }
    }
  }

  lemma {:induction false} FlattenAppend(bs: seq<Block>, b: Block)
    ensures Flatten(bs + [b]) == Flatten(bs) + b.txs
    decreases |bs|
  {
    if bs == [] {
      assert [] + [b] == [b] && [b][1..] == [];
      assert Flatten([b]) == b.txs + Flatten([b][1..]);
    } else {
      assert (bs + [b])[1..] == bs[1..] + [b];
      FlattenAppend(bs[1..], b);
    }
  }

  lemma CaughtUpIsApart(l: Ledger, bs: seq<Block>, b: Block)
    requires RunTxs(l, b.txs).Ok? && forall i :: 0 <= i < |bs| ==> RunTxs(l, bs[i].txs).Ok?
    ensures CaughtUp(l, Flatten(bs), b.txs) <==> forall i, a :: 0 <= i < |bs| && Uses(bs[i].txs, a) ==> !Uses(b.txs, a)
  {
    var anc := Flatten(bs);
    if CaughtUp(l, anc, b.txs) {
      forall i, a | 0 <= i < |bs| && Uses(bs[i].txs, a) ensures !Uses(b.txs, a) {
        var t :| t in bs[i].txs && SpentBy(t, a);
        var m :| 0 <= m < |bs[i].txs| && bs[i].txs[m] == t;
        LaterNonceIsHigher(l, bs[i].txs, m, a);
        InFlatten(bs, t);
        var n :| 0 <= n < |anc| && anc[n] == t;
      }
    }
    if !CaughtUp(l, anc, b.txs) {
      var m, j :| 0 <= m < |anc| && 0 <= j < |b.txs| && anc[m].txType != Coinbase && SpentBy(b.txs[j], anc[m].from)
        && anc[m].nonce > NonceOf(l.nonce, anc[m].from);
      InFlatten(bs, anc[m]);
      var i :| 0 <= i < |bs| && anc[m] in bs[i].txs;
      assert Uses(bs[i].txs, anc[m].from) && b.txs[j] in b.txs;
      assert Uses(b.txs, anc[m].from);
    }
  }

  /** Blocks that were all judged on one and the same ledger replay nothing exactly when no
      account spends in two of them. */
  lemma {:induction false} StaleReplayFreeIff(l: Ledger, bs: seq<Block>)
    requires forall i :: 0 <= i < |bs| ==> RunTxs(l, bs[i].txs).Ok?
    ensures ReplayFree(Flatten(bs)) <==> OncePerBlock(bs)
    decreases |bs|
  {
    if bs != [] {
      var n := |bs| - 1;
      var front, b := bs[..n], bs[n];
      assert bs == front + [b];
      FlattenAppend(front, b);
      AppendReplayFreeIff(l, Flatten(front), b.txs);
      StaleReplayFreeIff(l, front);
      CaughtUpIsApart(l, front, b);
      OncePerBlockSplit(front, b);
    }
  }

  lemma OncePerBlockSplit(front: seq<Block>, b: Block)
    ensures OncePerBlock(front + [b]) <==>
            OncePerBlock(front) && forall i, a :: 0 <= i < |front| && Uses(front[i].txs, a) ==> !Uses(b.txs, a)
  {
    var bs, n := front + [b], |front|;
    if OncePerBlock(bs) {
      forall i, j, a | 0 <= i < j < n && Uses(front[i].txs, a) ensures !Uses(front[j].txs, a) {
        assert bs[i] == front[i] && bs[j] == front[j];
      }
      forall i, a | 0 <= i < n && Uses(front[i].txs, a) ensures !Uses(b.txs, a) {
        assert bs[i] == front[i] && bs[n] == b;
      }
    }
  }
}

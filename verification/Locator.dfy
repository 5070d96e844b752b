/** Exponential block locators (core/node/locator.go). */
module Locator {
  import opened Wrappers
  import opened ChainTypes
  import opened Arithmetic
  import opened Storage
  import opened StateReplay

  // ----- which heights a locator visits -----

  // The walk from height h, with this step, after n entries, for at most `max` entries.
  function Heights(h: nat, step: nat, n: nat, max: nat): (hs: seq<nat>)
    ensures n < max ==> hs != [] && hs[0] == h
    decreases max - n
  {
    if n >= max then []
    else if h == 0 then [0]
    else
      var step' := if n + 1 > 10 then step * 2 else step;
      [h] + Heights(if step' > h then 0 else h - step', step', n + 1, max)
  }

  // How far below the tip the i-th entry is, until genesis is hit.
  function Depth(i: nat): nat { if i <= 10 then i else 8 + Pow2(i - 9) }

  function StepAt(i: nat): nat { if i <= 10 then 1 else Pow2(i - 10) }

  function HeightAt(tip: nat, i: nat): nat { if Depth(i) <= tip then tip - Depth(i) else 0 }

  lemma DepthStep(i: nat)
    ensures Depth(i + 1) == Depth(i) + StepAt(i + 1)
    ensures StepAt(i + 1) == if i + 1 > 10 then StepAt(i) * 2 else StepAt(i)
  {
    if i == 10 { assert Pow2(1) == 2 * Pow2(0) && Pow2(2) == 2 * Pow2(1); }
  }

  lemma {:induction false} DepthMonotone(i: nat, j: nat)
    requires i < j
    ensures Depth(i) < Depth(j)
    decreases j
  {
    DepthStep(j - 1);
    if i < j - 1 { DepthMonotone(i, j - 1); }
  }

  lemma {:induction false} HeightsClosed(tip: nat, i: nat, max: nat, k: nat)
    requires i < max && k < |Heights(HeightAt(tip, i), StepAt(i), i, max)|
    ensures Heights(HeightAt(tip, i), StepAt(i), i, max)[k] == HeightAt(tip, i + k)
    ensures k > 0 ==> HeightAt(tip, i + k - 1) > 0
    ensures k + 1 == |Heights(HeightAt(tip, i), StepAt(i), i, max)| ==> HeightAt(tip, i + k) == 0 || i + k + 1 == max
    decreases max - i
  {
    DepthStep(i);
    if HeightAt(tip, i) > 0 && k > 0 && i + 1 < max { HeightsClosed(tip, i + 1, max, k - 1); }
  }

  /** Entry by entry: one height at a time for ten steps, then twice as far each time; strictly
      falling; ending in genesis or after `max` entries. */
  lemma LocatorHeights(tip: nat, max: nat, k: nat)
    requires k < |Heights(tip, 1, 0, max)|
    ensures Heights(tip, 1, 0, max)[k] == HeightAt(tip, k)
    ensures k > 0 ==> Heights(tip, 1, 0, max)[k] < Heights(tip, 1, 0, max)[k - 1]
    ensures k + 1 == |Heights(tip, 1, 0, max)| ==> HeightAt(tip, k) == 0 || k + 1 == max
  {
    assert HeightAt(tip, 0) == tip && StepAt(0) == 1;
    HeightsClosed(tip, 0, max, k);
    if k > 0 {
      HeightsClosed(tip, 0, max, k - 1);
      DepthStep(k - 1);
    }
  }

  ghost predicate ReachesGenesis(tip: nat, max: nat) {
    var hs := Heights(tip, 1, 0, max); hs != [] && hs[|hs| - 1] == 0
  }

  /** The locator reaches genesis exactly when the tip is not above the last entry's depth. */
  lemma ReachesGenesisIff(tip: nat, max: nat)
    requires max > 0
    ensures ReachesGenesis(tip, max) <==> tip <= Depth(max - 1)
  {
    var hs := Heights(tip, 1, 0, max);
    var last := |hs| - 1;
    LocatorHeights(tip, max, last);
    HeightsLength(tip, 1, 0, max);
    if last < max - 1 { DepthMonotone(last, max - 1); }
  }

  lemma {:induction false} HeightsLength(h: nat, step: nat, n: nat, max: nat)
    requires n <= max
    ensures |Heights(h, step, n, max)| <= max - n
    decreases max - n
  {
    if n < max && h > 0 {
      var step' := if n + 1 > 10 then step * 2 else step;
      HeightsLength(if step' > h then 0 else h - step', step', n + 1, max);
    }
  }

  /** With the default of 32 entries that is every tip up to 8 + 2^22. */
  lemma DefaultReach(tip: nat)
    requires tip <= 8 + 0x40_0000
    ensures ReachesGenesis(tip, 32)
  {
    ReachesGenesisIff(tip, 32);
    Pow2Byte(0);
    Pow2Byte(8);
    assert Pow2(18) == 4 * Pow2(16);
    assert Pow2(20) == 4 * Pow2(18);
    assert Pow2(22) == 4 * Pow2(20);
  }

  // ----- how far a locator overshoots -----

  // A fork d below the tip is met at most this deep.
  function Overshoot(d: nat): nat { if d <= 10 then d else 2 * d - 10 }

  // The j-th entry is the first at or below the fork, and not too far below it.
  ghost predicate MeetsFork(hs: seq<nat>, tip: nat, d: nat, j: nat) {
    j < |hs| && (forall i :: 0 <= i < j ==> hs[i] > tip - d) && tip - Overshoot(d) <= hs[j] <= tip - d
  }

  /** The first entry at or below a fork at depth d is at most Overshoot(d) deep. */
  lemma {:induction false} FirstBelow(tip: nat, max: nat, d: nat, k: nat)
    requires ReachesGenesis(tip, max) && d <= tip && k < |Heights(tip, 1, 0, max)|
    requires forall i :: 0 <= i < k ==> Heights(tip, 1, 0, max)[i] > tip - d
    ensures exists j: nat :: MeetsFork(Heights(tip, 1, 0, max), tip, d, j)
    decreases |Heights(tip, 1, 0, max)| - k
  {
    var hs := Heights(tip, 1, 0, max);
    LocatorHeights(tip, max, k);
    if hs[k] > tip - d {
      assert k + 1 < |hs|;
      FirstBelow(tip, max, d, k + 1);
    } else {
      if k > 0 {
        LocatorHeights(tip, max, k - 1);
        assert Depth(k - 1) < d;
        DepthDoubles(k - 1, d);
      }
      assert MeetsFork(hs, tip, d, k);
    }
  }

  lemma DepthDoubles(i: nat, d: nat)
    requires Depth(i) < d
    ensures Depth(i + 1) <= Overshoot(d)
  {
    DepthStep(i);
  }

  // ----- building and using a locator -----

  // The hashes at those heights, as far as they are all stored.
  function Hashes(blocks: map<Hash, Block>, hashAt: map<nat, Hash>, hs: seq<nat>): seq<Hash> {
    if hs == [] || BlockAt(blocks, hashAt, hs[0]).None? then [] else [hashAt[hs[0]]] + Hashes(blocks, hashAt, hs[1..])
  }

  lemma {:induction false} HashesOfStored(blocks: map<Hash, Block>, hashAt: map<nat, Hash>, hs: seq<nat>)
    requires forall i :: 0 <= i < |hs| ==> BlockAt(blocks, hashAt, hs[i]).Some?
    ensures |Hashes(blocks, hashAt, hs)| == |hs|
    ensures forall i :: 0 <= i < |hs| ==> hs[i] in hashAt && Hashes(blocks, hashAt, hs)[i] == hashAt[hs[i]]
    decreases |hs|
  {
    if hs != [] { HashesOfStored(blocks, hashAt, hs[1..]); }
  }

  method Collect(db: Db, tipH: nat, max: nat) returns (l: seq<Hash>)
    ensures l == Hashes(db.blocks, db.hashAt, Heights(tipH, 1, 0, max))
  {
    l := [];
    var step, h := 1, tipH;
    ghost var todo := Heights(tipH, 1, 0, max);
    while |l| < max
      invariant |l| <= max && todo == Heights(h, step, |l|, max)
      invariant l + Hashes(db.blocks, db.hashAt, todo) == Hashes(db.blocks, db.hashAt, Heights(tipH, 1, 0, max))
      decreases max - |l|
    {
      if h !in db.hashAt || db.hashAt[h] !in db.blocks { break; }
      HashesStep(db.blocks, db.hashAt, l, todo);
      l := l + [db.hashAt[h]];
      todo := todo[1..];
      if h == 0 { break; }
      if |l| > 10 { step := step * 2; }
      if step > h { h := 0; } else { h := h - step; }
    }
  }

  lemma HashesStep(blocks: map<Hash, Block>, hashAt: map<nat, Hash>, l: seq<Hash>, todo: seq<nat>)
    requires todo != [] && todo[0] in hashAt && hashAt[todo[0]] in blocks
    ensures l + Hashes(blocks, hashAt, todo) == (l + [hashAt[todo[0]]]) + Hashes(blocks, hashAt, todo[1..])
  {
  }

  /** The locator lists the hashes at those heights, up to the first that is not stored; if not
      even the tip's is, it is the tip hash alone. */
  method BuildBlockLocator(db: Db, max: int) returns (loc: Option<seq<Hash>>)
    ensures loc.Some? == db.tip.Some?
    ensures loc.Some? ==>
      var found := Hashes(db.blocks, db.hashAt, Heights(db.tip.value.height, 1, 0, if max <= 0 then 32 else max));
      loc.value == if found == [] && db.tip.value.hash != "" then [db.tip.value.hash] else found
  {
    if db.tip.None? { return None; }
    var l := Collect(db, db.tip.value.height, if max <= 0 then 32 else max);
    if |l| == 0 && db.tip.value.hash != "" { l := [db.tip.value.hash]; }
    return Some(l);
  }

  method FindFirstKnown(db: Db, locator: seq<Hash>) returns (r: Option<Tip>, ghost at: nat)
    ensures r.None? ==> forall i :: 0 <= i < |locator| ==> locator[i] !in db.blocks
    ensures r.Some? ==>
      && at < |locator| && locator[at] in db.blocks
      && r.value == Tip(db.blocks[locator[at]].header.height, locator[at])
      && forall i :: 0 <= i < at ==> locator[i] !in db.blocks
  {
    at := 0;
    for i := 0 to |locator|
      invariant forall k :: 0 <= k < i ==> locator[k] !in db.blocks
    {
      if locator[i] in db.blocks { return Some(Tip(db.blocks[locator[i]].header.height, locator[i])), i; }
    }
    return None, 0;
  }

  // The j-th entry, our block at height h, is the first one the peer knows.
  ghost predicate FoundAt(hashAt: map<nat, Hash>, loc: seq<Hash>, peer: map<Hash, Block>, j: nat, h: nat) {
    j < |loc| && h in hashAt && loc[j] == hashAt[h] && loc[j] in peer && forall i :: 0 <= i < j ==> loc[i] !in peer
  }

  /** A peer that shares our chain from depth d down, and nothing above, finds in our locator
      a block it knows that is at least d and at most Overshoot(d) below our tip. */
  lemma LocatorFindsForkWithin(
    blocks: map<Hash, Block>, hashAt: map<nat, Hash>, tip: nat, max: nat, d: nat, peer: map<Hash, Block>)
    requires forall h: nat :: h <= tip ==> BlockAt(blocks, hashAt, h).Some?
    requires ReachesGenesis(tip, max) && d <= tip
    requires forall h: nat :: h <= tip ==> h in hashAt && (hashAt[h] in peer <==> h <= tip - d)
    ensures var loc := Hashes(blocks, hashAt, Heights(tip, 1, 0, max));
            exists j: nat, h: nat :: FoundAt(hashAt, loc, peer, j, h) && tip - Overshoot(d) <= h <= tip - d
  {
    var hs: seq<nat> := Heights(tip, 1, 0, max);
    var loc := Hashes(blocks, hashAt, hs);
    forall i | 0 <= i < |hs| ensures hs[i] <= tip && BlockAt(blocks, hashAt, hs[i]).Some? {
      LocatorHeights(tip, max, i);
    }
    HashesOfStored(blocks, hashAt, hs);
    FirstBelow(tip, max, d, 0);
    var j: nat :| MeetsFork(hs, tip, d, j);
    forall i | 0 <= i < j ensures loc[i] !in peer {
      assert loc[i] == hashAt[hs[i]] && hs[i] <= tip;
    }
    assert FoundAt(hashAt, loc, peer, j, hs[j]);
  }
}

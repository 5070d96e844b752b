/** The transaction root (core/chain/txroot.go) and transaction ids (core/chain/tx.go). The
    hash function is a parameter; it need be free of collisions only on what is hashed. */
module MerkleRoot {
  import opened ChainTypes
  import opened Codec

  type HashFn = string -> string

  ghost predicate IsByte(c: char) { c as int < 256 }

  // Outputs are 32 bytes.
  ghost predicate Digest(h: HashFn) {
    forall x :: |h(x)| == 32 && forall i :: 0 <= i < 32 ==> IsByte(h(x)[i])
  }

  ghost predicate CollisionFreeOn(h: HashFn, s: set<string>) {
    forall x, y :: x in s && y in s && h(x) == h(y) ==> x == y
  }

  // ----- the tree -----

  // Neighbours are hashed together; an odd last entry is hashed with itself.
  function NextLevel(h: HashFn, level: seq<string>): (next: seq<string>)
    ensures |next| == (|level| + 1) / 2
    decreases |level|
  {
    if |level| == 0 then []
    else if |level| == 1 then [h(level[0] + level[0])]
    else [h(level[0] + level[1])] + NextLevel(h, level[2..])
  }

  function Root(h: HashFn, level: seq<string>): string
    requires level != []
    decreases |level|
  {
    if |level| == 1 then h(level[0]) else Root(h, NextLevel(h, level))
  }

  function RootOf(h: HashFn, ids: seq<string>): string {
    if ids == [] then h(h("txroot:empty")) else Root(h, ids)
  }

  function IdsBy(idOf: Tx -> string, txs: seq<Tx>): (ids: seq<string>)
    ensures |ids| == |txs| && forall i :: 0 <= i < |txs| ==> ids[i] == idOf(txs[i])
  {
    seq(|txs|, i requires 0 <= i < |txs| => idOf(txs[i]))
  }

  method TxRoot(h: HashFn, idOf: Tx -> string, txs: seq<Tx>) returns (root: string)
    ensures root == RootOf(h, IdsBy(idOf, txs))
  {
    if |txs| == 0 { return h(h("txroot:empty")); }
    var level: seq<string> := [];
    for i := 0 to |txs|
      invariant |level| == i && forall k :: 0 <= k < i ==> level[k] == idOf(txs[k])
    {
      level := level + [idOf(txs[i])];
    }
    ghost var ids := IdsBy(idOf, txs);
    assert level == ids;
    while |level| > 1
      invariant level != [] && Root(h, level) == Root(h, ids)
      decreases |level|
    {
      level := HashPairs(h, level);
    }
    root := h(level[0]);
  }

  method HashPairs(h: HashFn, level: seq<string>) returns (next: seq<string>)
    ensures next == NextLevel(h, level)
  {
    next := [];
    var i := 0;
    ghost var todo := level;
    while i < |level|
      invariant 0 <= i <= |level| + 1 && todo == if i <= |level| then level[i..] else []
      invariant next + NextLevel(h, todo) == NextLevel(h, level)
    {
      if i + 1 == |level| {
        next := next + [h(level[i] + level[i])];
        todo := [];
      } else {
        next := next + [h(level[i] + level[i + 1])];
        todo := todo[2..];
      }
      i := i + 2;
    }
  }

  // ----- what is hashed -----

  // Everything hashed between one level and the next.
  function LevelInputs(level: seq<string>): set<string>
    decreases |level|
  {
    if |level| == 0 then {}
    else if |level| == 1 then {level[0] + level[0]}
    else {level[0] + level[1]} + LevelInputs(level[2..])
  }

  // Everything hashed on the way to the root.
  function RootInputs(h: HashFn, level: seq<string>): set<string>
    requires level != []
    decreases |level|
  {
    if |level| == 1 then {level[0]} else LevelInputs(level) + RootInputs(h, NextLevel(h, level))
  }

  ghost predicate Uniform(level: seq<string>, n: nat) { forall i :: 0 <= i < |level| ==> |level[i]| == n }

  lemma SplitPair(a: string, b: string, c: string, d: string)
    requires |a| == |c| && a + b == c + d
    ensures a == c && b == d
  {
    assert (a + b)[..|a|] == a && (a + b)[|a|..] == b;
    assert (c + d)[..|c|] == c && (c + d)[|c|..] == d;
  }

  // ----- exactly when two lists share a root -----

  // The tree a list stands for, before any hashing.
  datatype Tree = Leaf(id: string) | Node(left: Tree, right: Tree)

  function NextTrees(ts: seq<Tree>): (next: seq<Tree>)
    ensures |next| == (|ts| + 1) / 2
    decreases |ts|
  {
    if |ts| == 0 then []
    else if |ts| == 1 then [Node(ts[0], ts[0])]
    else [Node(ts[0], ts[1])] + NextTrees(ts[2..])
  }

  function Grow(ts: seq<Tree>): Tree
    requires ts != []
    decreases |ts|
  {
    if |ts| == 1 then ts[0] else Grow(NextTrees(ts))
  }

  function Leaves(ids: seq<string>): (ts: seq<Tree>)
    ensures |ts| == |ids| && forall i :: 0 <= i < |ids| ==> ts[i] == Leaf(ids[i])
  {
    seq(|ids|, i requires 0 <= i < |ids| => Leaf(ids[i]))
  }

  function TreeOf(ids: seq<string>): Tree
    requires ids != []
  {
    Grow(Leaves(ids))
  }

  // The string a tree contributes to the level above.
  function Val(h: HashFn, t: Tree): string {
    match t case Leaf(id) => id case Node(l, r) => h(Val(h, l) + Val(h, r))
  }

  function Vals(h: HashFn, ts: seq<Tree>): (vs: seq<string>)
    ensures |vs| == |ts| && forall i :: 0 <= i < |ts| ==> vs[i] == Val(h, ts[i])
  {
    seq(|ts|, i requires 0 <= i < |ts| => Val(h, ts[i]))
  }

  lemma {:induction false} NextVals(h: HashFn, ts: seq<Tree>)
    ensures Vals(h, NextTrees(ts)) == NextLevel(h, Vals(h, ts))
    decreases |ts|
  {
    if |ts| > 1 {
      NextVals(h, ts[2..]);
      assert Vals(h, ts)[2..] == Vals(h, ts[2..]);
      assert Vals(h, NextTrees(ts)) == [h(Val(h, ts[0]) + Val(h, ts[1]))] + Vals(h, NextTrees(ts[2..]));
    } else if |ts| == 1 {
      assert Vals(h, NextTrees(ts)) == [h(Val(h, ts[0]) + Val(h, ts[0]))];
    }
  }

  lemma {:induction false} GrowRoot(h: HashFn, ts: seq<Tree>)
    requires ts != []
    ensures Root(h, Vals(h, ts)) == h(Val(h, Grow(ts)))
    ensures Val(h, Grow(ts)) in RootInputs(h, Vals(h, ts))
    decreases |ts|
  {
    if |ts| > 1 {
      NextVals(h, ts);
      GrowRoot(h, NextTrees(ts));
    }
  }

  // Every pair of strings hashed inside a tree, and inside a list of trees.
  function Pairs(h: HashFn, t: Tree): set<string> {
    match t case Leaf(_) => {} case Node(l, r) => {Val(h, l) + Val(h, r)} + Pairs(h, l) + Pairs(h, r)
  }

  function AllPairs(h: HashFn, ts: seq<Tree>): set<string> {
    if ts == [] then {} else Pairs(h, ts[0]) + AllPairs(h, ts[1..])
  }

  lemma {:induction false} NextPairs(h: HashFn, ts: seq<Tree>)
    ensures AllPairs(h, NextTrees(ts)) <= AllPairs(h, ts) + LevelInputs(Vals(h, ts))
    decreases |ts|
  {
    if |ts| > 1 {
      NextPairs(h, ts[2..]);
      assert Vals(h, ts)[2..] == Vals(h, ts[2..]);
      assert ts[1..][1..] == ts[2..];
      var n := NextTrees(ts);
      assert n[0] == Node(ts[0], ts[1]) && n[1..] == NextTrees(ts[2..]);
      assert AllPairs(h, ts) == Pairs(h, ts[0]) + (Pairs(h, ts[1]) + AllPairs(h, ts[2..]));
    } else if |ts| == 1 {
      var n := NextTrees(ts);
      assert n[1..] == [] && ts[1..] == [];
      assert AllPairs(h, n) == Pairs(h, n[0]) + AllPairs(h, n[1..]);
    }
  }

  lemma {:induction false} GrowPairs(h: HashFn, ts: seq<Tree>)
    requires ts != []
    ensures Pairs(h, Grow(ts)) <= AllPairs(h, ts) + RootInputs(h, Vals(h, ts))
    decreases |ts|
  {
    if |ts| == 1 {
      assert AllPairs(h, ts) == Pairs(h, ts[0]) + AllPairs(h, ts[1..]);
    } else {
      NextVals(h, ts);
      NextPairs(h, ts);
      GrowPairs(h, NextTrees(ts));
    }
  }

  lemma {:induction false} LeafPairs(h: HashFn, ids: seq<string>)
    ensures AllPairs(h, Leaves(ids)) == {} && Vals(h, Leaves(ids)) == ids
    decreases |ids|
  {
    if ids != [] {
      LeafPairs(h, ids[1..]);
      assert Leaves(ids)[1..] == Leaves(ids[1..]);
    }
  }

  // All leaves at one depth, with ids of 64 characters.
  function Depth(t: Tree): nat { match t case Leaf(_) => 0 case Node(l, _) => 1 + Depth(l) }

  ghost predicate Perfect(t: Tree) {
    match t case Leaf(id) => |id| == 64 case Node(l, r) => Perfect(l) && Perfect(r) && Depth(l) == Depth(r)
  }

  ghost predicate PerfectRow(ts: seq<Tree>, d: nat) { forall i :: 0 <= i < |ts| ==> Perfect(ts[i]) && Depth(ts[i]) == d }

  lemma {:induction false} NextPerfect(ts: seq<Tree>, d: nat)
    requires PerfectRow(ts, d)
    ensures PerfectRow(NextTrees(ts), d + 1)
    decreases |ts|
  {
    if |ts| > 1 { NextPerfect(ts[2..], d); }
  }

  lemma {:induction false} GrowPerfect(ts: seq<Tree>, d: nat)
    requires ts != [] && PerfectRow(ts, d)
    ensures Perfect(Grow(ts))
    decreases |ts|
  {
    if |ts| > 1 {
      NextPerfect(ts, d);
      GrowPerfect(NextTrees(ts), d + 1);
    }
  }

  // A leaf shows 64 characters and a node 32, so the two are never confused.
  lemma {:induction false} ValInjective(h: HashFn, s: set<string>, a: Tree, b: Tree)
    requires Digest(h) && CollisionFreeOn(h, s) && Pairs(h, a) <= s && Pairs(h, b) <= s
    requires Perfect(a) && Perfect(b) && Val(h, a) == Val(h, b)
    ensures a == b
    decreases a
  {
    if a.Node? && b.Node? {
      var x, y := Val(h, a.left) + Val(h, a.right), Val(h, b.left) + Val(h, b.right);
      assert x in s && y in s && x == y;
      assert a.left.Leaf? == a.right.Leaf? && b.left.Leaf? == b.right.Leaf?;
      SplitPair(Val(h, a.left), Val(h, a.right), Val(h, b.left), Val(h, b.right));
      ValInjective(h, s, a.left, b.left);
      ValInjective(h, s, a.right, b.right);
    }
  }

  /** Two lists of ids, of whatever lengths, have the same root exactly when they stand for the
      same tree; unless two different strings hashed on the way collide. */
  lemma RootIff(h: HashFn, xs: seq<string>, ys: seq<string>)
    requires Digest(h) && xs != [] && ys != [] && Uniform(xs, 64) && Uniform(ys, 64)
    requires CollisionFreeOn(h, RootInputs(h, xs) + RootInputs(h, ys))
    ensures Root(h, xs) == Root(h, ys) <==> TreeOf(xs) == TreeOf(ys)
  {
    var s := RootInputs(h, xs) + RootInputs(h, ys);
    TreeFacts(h, xs);
    TreeFacts(h, ys);
    if Root(h, xs) == Root(h, ys) { ValInjective(h, s, TreeOf(xs), TreeOf(ys)); }
  }

  lemma TreeFacts(h: HashFn, ids: seq<string>)
    requires ids != [] && Uniform(ids, 64)
    ensures Perfect(TreeOf(ids)) && Pairs(h, TreeOf(ids)) <= RootInputs(h, ids)
    ensures Root(h, ids) == h(Val(h, TreeOf(ids))) && Val(h, TreeOf(ids)) in RootInputs(h, ids)
  {
    LeafPairs(h, ids);
    GrowRoot(h, Leaves(ids));
    GrowPairs(h, Leaves(ids));
    GrowPerfect(Leaves(ids), 0);
  }

  // ----- the tree as a padded list -----

  function Fringe(t: Tree): (ids: seq<string>)
    ensures |ids| > 0
  {
    match t case Leaf(id) => [id] case Node(l, r) => Fringe(l) + Fringe(r)
  }

  function Fringes(ts: seq<Tree>): seq<string> { if ts == [] then [] else Fringe(ts[0]) + Fringes(ts[1..]) }

  // The list with the repetitions that the odd levels add.
  function Padded(ids: seq<string>): seq<string>
    requires ids != []
  {
    Fringe(TreeOf(ids))
  }

  lemma {:induction false} FringeEven(t: Tree)
    requires Perfect(t)
    ensures t.Node? ==> |Fringe(t.left)| == |Fringe(t.right)|
    ensures |Fringe(t)| == FringeSize(Depth(t))
  {
    if t.Node? {
      FringeEven(t.left);
      FringeEven(t.right);
    }
  }

  function FringeSize(d: nat): nat { if d == 0 then 1 else 2 * FringeSize(d - 1) }

  lemma {:induction false} FringeInjective(a: Tree, b: Tree)
    requires Perfect(a) && Perfect(b) && Fringe(a) == Fringe(b)
    ensures a == b
    decreases a
  {
    FringeEven(a);
    FringeEven(b);
    if a.Node? && b.Node? {
      assert Fringe(a)[..|Fringe(a.left)|] == Fringe(a.left) && Fringe(a)[|Fringe(a.left)|..] == Fringe(a.right);
      assert Fringe(b)[..|Fringe(b.left)|] == Fringe(b.left) && Fringe(b)[|Fringe(b.left)|..] == Fringe(b.right);
      FringeInjective(a.left, b.left);
      FringeInjective(a.right, b.right);
    }
  }

  lemma {:induction false} NextFringes(ts: seq<Tree>)
    ensures Fringes(ts) <= Fringes(NextTrees(ts))
    decreases |ts|
  {
    var n := NextTrees(ts);
    if |ts| > 1 {
      NextFringes(ts[2..]);
      assert ts[1..][1..] == ts[2..] && n[1..] == NextTrees(ts[2..]);
      var two := Fringe(ts[0]) + Fringe(ts[1]);
      assert Fringes(ts) == two + Fringes(ts[2..]) by { assert Fringes(ts[1..]) == Fringe(ts[1]) + Fringes(ts[2..]); }
      assert Fringes(n) == two + Fringes(n[1..]);
    } else if |ts| == 1 {
      assert ts[1..] == [] && n[1..] == [];
      assert Fringes(n) == (Fringe(ts[0]) + Fringe(ts[0])) + Fringes(n[1..]);
    }
  }

  lemma {:induction false} GrowFringe(ts: seq<Tree>)
    requires ts != []
    ensures Fringes(ts) <= Fringe(Grow(ts))
    decreases |ts|
  {
    if |ts| > 1 {
      NextFringes(ts);
      GrowFringe(NextTrees(ts));
    } else {
      assert ts[1..] == [];
    }
  }

  lemma {:induction false} LeafFringes(ids: seq<string>)
    ensures Fringes(Leaves(ids)) == ids
    decreases |ids|
  {
    if ids != [] {
      LeafFringes(ids[1..]);
      assert Leaves(ids)[1..] == Leaves(ids[1..]);
    }
  }

  /** In terms of lists: the padded list begins with the list itself, and two roots agree exactly
      when the padded lists do. */
  lemma PaddedRootIff(h: HashFn, xs: seq<string>, ys: seq<string>)
    requires Digest(h) && xs != [] && ys != [] && Uniform(xs, 64) && Uniform(ys, 64)
    requires CollisionFreeOn(h, RootInputs(h, xs) + RootInputs(h, ys))
    ensures xs <= Padded(xs) && ys <= Padded(ys)
    ensures Root(h, xs) == Root(h, ys) <==> Padded(xs) == Padded(ys)
  {
    RootIff(h, xs, ys);
    TreeFacts(h, xs);
    TreeFacts(h, ys);
    LeafFringes(xs);
    LeafFringes(ys);
    GrowFringe(Leaves(xs));
    GrowFringe(Leaves(ys));
    if Padded(xs) == Padded(ys) { FringeInjective(TreeOf(xs), TreeOf(ys)); }
  }

  /** So equally many ids with the same root are the same ids. */
  lemma RootInjective(h: HashFn, xs: seq<string>, ys: seq<string>)
    requires Digest(h) && |xs| == |ys| > 0 && Uniform(xs, 64) && Uniform(ys, 64)
    requires CollisionFreeOn(h, RootInputs(h, xs) + RootInputs(h, ys))
    requires Root(h, xs) == Root(h, ys)
    ensures xs == ys
  {
    PaddedRootIff(h, xs, ys);
    assert xs == Padded(xs)[..|xs|] && ys == Padded(ys)[..|ys|];
  }

  lemma {:induction false} RepeatedLastSameNext(h: HashFn, level: seq<string>)
    requires |level| % 2 == 1
    ensures NextLevel(h, level + [level[|level| - 1]]) == NextLevel(h, level)
    decreases |level|
  {
    var more := level + [level[|level| - 1]];
    if |level| == 1 {
      assert more[2..] == [];
    } else {
      assert more[2..] == level[2..] + [level[2..][|level[2..]| - 1]];
      RepeatedLastSameNext(h, level[2..]);
    }
  }

  /** For example, whatever the hash function: a list of odd length above one and the same list
      with its last id repeated. */
  lemma RepeatedLastSameRoot(h: HashFn, level: seq<string>)
    requires |level| % 2 == 1 && |level| > 1
    ensures Root(h, level + [level[|level| - 1]]) == Root(h, level)
  {
    RepeatedLastSameNext(h, level);
  }

  // ----- ids -----

  function HexDigit(d: nat): char
    requires d < 16
  {
    "0123456789abcdef"[d]
  }

  function Hex(b: string): (s: string)
    ensures |s| == 2 * |b|
  {
    if b == "" then "" else HexByte(b[0]) + Hex(b[1..])
  }

  lemma HexDigitInjective(d: nat, e: nat)
    requires d < 16 && e < 16 && HexDigit(d) == HexDigit(e)
    ensures d == e
  {
  }

  function HexByte(c: char): string { [HexDigit(c as int / 16 % 16), HexDigit(c as int % 16)] }

  lemma HexByteInjective(c: char, d: char)
    requires IsByte(c) && IsByte(d) && HexByte(c) == HexByte(d)
    ensures c == d
  {
    var m, n := c as int, d as int;
    assert HexByte(c)[0] == HexByte(d)[0] && HexByte(c)[1] == HexByte(d)[1];
    HexDigitInjective(m / 16 % 16, n / 16 % 16);
    HexDigitInjective(m % 16, n % 16);
    assert m == n;
  }

  lemma {:induction false} HexInjective(a: string, b: string)
    requires (forall i :: 0 <= i < |a| ==> IsByte(a[i])) && (forall i :: 0 <= i < |b| ==> IsByte(b[i]))
    requires Hex(a) == Hex(b)
    ensures a == b
    decreases |a|
  {
    if a != "" {
      assert Hex(a)[..2] == HexByte(a[0]) && Hex(b)[..2] == HexByte(b[0]);
      assert Hex(a)[2..] == Hex(a[1..]) && Hex(b)[2..] == Hex(b[1..]);
      HexByteInjective(a[0], b[0]);
      HexInjective(a[1..], b[1..]);
      assert a == [a[0]] + a[1..] && b == [b[0]] + b[1..];
    }
  }

  // An id is the hex form of the signing bytes hashed twice.
  function IdOf(h: HashFn, bytes: string): string { Hex(h(h(bytes))) }

  function Ids(h: HashFn, signed: seq<string>): (ids: seq<string>)
    ensures |ids| == |signed| && forall i :: 0 <= i < |signed| ==> ids[i] == IdOf(h, signed[i])
  {
    seq(|signed|, i requires 0 <= i < |signed| => IdOf(h, signed[i]))
  }

  // Everything hashed to get from signing bytes to the root.
  ghost function AllInputs(h: HashFn, signed: seq<string>): set<string>
    requires signed != []
  {
    (set x | x in signed) + (set x | x in signed :: h(x)) + RootInputs(h, Ids(h, signed))
  }

  lemma SameIdSameBytes(h: HashFn, a: string, b: string, s: set<string>)
    requires Digest(h) && CollisionFreeOn(h, s) && IdOf(h, a) == IdOf(h, b)
    requires a in s && h(a) in s && b in s && h(b) in s
    ensures a == b
  {
    HexInjective(h(h(a)), h(h(b)));
  }

  lemma RootFixesBytes(h: HashFn, xs: seq<string>, ys: seq<string>)
    requires Digest(h) && |xs| == |ys| > 0 && CollisionFreeOn(h, AllInputs(h, xs) + AllInputs(h, ys))
    requires Root(h, Ids(h, xs)) == Root(h, Ids(h, ys))
    ensures xs == ys
  {
    var a, b, s := Ids(h, xs), Ids(h, ys), AllInputs(h, xs) + AllInputs(h, ys);
    assert RootInputs(h, a) + RootInputs(h, b) <= s;
    RootInjective(h, a, b);
    forall i | 0 <= i < |xs| ensures xs[i] == ys[i] {
      assert a[i] == b[i];
      assert xs[i] in xs && ys[i] in ys;
      SameIdSameBytes(h, xs[i], ys[i], s);
    }
  }

  function Signed(txs: seq<Tx>): (bs: seq<string>)
    ensures |bs| == |txs| && forall i :: 0 <= i < |txs| ==> bs[i] == SigningBytes(txs[i])
  {
    seq(|txs|, i requires 0 <= i < |txs| => SigningBytes(txs[i]))
  }

  /** Blocks with equally many transactions and the same transaction root carry, in the same
      order, transactions that agree in every signed field; unless the hash collides on
      something that was actually hashed. */
  lemma RootFixesTransactions(h: HashFn, xs: seq<Tx>, ys: seq<Tx>)
    requires Digest(h) && |xs| == |ys| > 0
    requires (forall i :: 0 <= i < |xs| ==> Fits(xs[i])) && (forall i :: 0 <= i < |ys| ==> Fits(ys[i]))
    requires CollisionFreeOn(h, AllInputs(h, Signed(xs)) + AllInputs(h, Signed(ys)))
    requires RootOf(h, Ids(h, Signed(xs))) == RootOf(h, Ids(h, Signed(ys)))
    ensures forall i :: 0 <= i < |xs| ==> Codec.Kept(xs[i], false) == Codec.Kept(ys[i], false)
  {
    RootFixesBytes(h, Signed(xs), Signed(ys));
    forall i | 0 <= i < |xs| ensures Codec.Kept(xs[i], false) == Codec.Kept(ys[i], false) {
      assert Signed(xs)[i] == Signed(ys)[i];
      SigningBytesIff(xs[i], ys[i]);
    }
  }

  /** Small roots, written out. */
  lemma SmallRoots(h: HashFn, a: string, b: string, c: string)
    ensures RootOf(h, []) == h(h("txroot:empty")) && RootOf(h, [a]) == h(a) && RootOf(h, [a, b]) == h(h(a + b))
    ensures RootOf(h, [a, b, c]) == h(h(h(a + b) + h(c + c)))
  {
    assert [a, b][2..] == [] && [a, b, c][2..] == [c];
    assert NextLevel(h, [a, b]) == [h(a + b)];
    assert Root(h, [a, b]) == Root(h, [h(a + b)]) == h(h(a + b));
    var ab, cc := h(a + b), h(c + c);
    assert NextLevel(h, [a, b, c]) == [ab, cc];
    assert Root(h, [a, b, c]) == Root(h, [ab, cc]);
    assert [ab, cc][2..] == [];
    assert NextLevel(h, [ab, cc]) == [h(ab + cc)];
    assert Root(h, [ab, cc]) == Root(h, [h(ab + cc)]) == h(h(ab + cc));
  }
}

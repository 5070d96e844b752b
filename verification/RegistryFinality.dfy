/** The second finalisation routine, which moves the fork-choice anchor (tryFinalizeHeight in
    core/node/node.go, ReachedThreshold in core/consensus/finality/pos.go). */
module RegistryFinality {
  import opened Wrappers
  import opened ChainTypes
  import opened Storage
  import opened Arithmetic
  import opened WeightedSets
  import opened Finality

  datatype Rule = Rule(chainId: string, num: int, den: int, sigOk: VoteRecord -> bool)

  predicate ReachedThreshold(sum: int, total: int, num: int, den: int) {
    total > 0 && sum * den >= total * num
  }

  predicate IsMatch(r: Rule, v: VoteRecord, hash: Hash) { v.blockHash == hash && v.chainId == r.chainId }

  // The validators with a stored vote at this height for this hash on this chain.
  ghost function Matching(r: Rule, votes: Votes, height: nat, hash: Hash): set<Pub> {
    set p | p in AllVoters(votes, height) && (height, p) in votes && IsMatch(r, votes[(height, p)], hash)
  }

  // Those of them whose signature verifies.
  ghost function Signed(r: Rule, votes: Votes, height: nat, hash: Hash): set<Pub> {
    set p | p in Matching(r, votes, height, hash) && r.sigOk(votes[(height, p)])
  }

  function Standing(reg: Registry): Weights { map p | p in reg && !reg[p].slashed :: reg[p].weight }

  ghost function Sum(w: Weights): int { SumOver(w, w.Keys) }

  // With a registry the total is added once for every matching vote; without one it is the
  // configured validators' total as soon as there is a matching vote.
  ghost predicate Reached(r: Rule, reg: Registry, config: Weights, votes: Votes, height: nat, hash: Hash) {
    var m, s := Matching(r, votes, height, hash), Signed(r, votes, height, hash);
    if reg != map[] then ReachedThreshold(SumOver(Standing(reg), s), |m| * Sum(Standing(reg)), r.num, r.den)
    else m != {} && ReachedThreshold(SumOver(config, s), Sum(config), r.num, r.den)
  }

  // ----- as the source counts -----

  // One vote against the whole registry.
  method CountRegistry(r: Rule, reg: Registry, vr: VoteRecord, p: Pub) returns (total: int, signed: int)
    ensures total == Sum(Standing(reg))
    ensures signed == if r.sigOk(vr) then WeightOf(Standing(reg), p) else 0
  {
    total, signed := 0, 0;
    var rest := reg.Keys;
    ghost var w, done: set<Pub> := Standing(reg), {};
    while rest != {}
      invariant rest <= reg.Keys && done == w.Keys - rest
      invariant total == SumOver(w, done)
      invariant signed == if r.sigOk(vr) && p in done then w[p] else 0
    {
      var q :| q in rest;
      rest := rest - {q};
      if reg[q].slashed {
        assert w.Keys - rest == done;
        continue;
      }
      SumAdd(w, done, q);
      done := done + {q};
      assert done == w.Keys - rest;
      total := total + reg[q].weight;
      if q != p { continue; }
      if r.sigOk(vr) { signed := signed + reg[q].weight; }
    }
    assert done == w.Keys;
  }

  method SumConfig(config: Weights) returns (total: int)
    ensures total == Sum(config)
  {
    total := 0;
    var rest := config.Keys;
    while rest != {}
      invariant rest <= config.Keys && total == SumOver(config, config.Keys - rest)
    {
      var q :| q in rest;
      SumAdd(config, config.Keys - rest, q);
      assert config.Keys - rest + {q} == config.Keys - (rest - {q});
      rest := rest - {q};
      total := total + config[q];
    }
    assert config.Keys - rest == config.Keys;
  }

  ghost predicate Counted(useReg: bool, w: Weights, m: set<Pub>, s: set<Pub>, total: int, signed: int) {
    && total == (if useReg then |m| * Sum(w) else if m == {} then 0 else Sum(w))
    && signed == SumOver(w, s)
  }

  lemma CountedOneMore(useReg: bool, w: Weights, m: set<Pub>, s: set<Pub>, total: int, signed: int, p: Pub, ok: bool)
    requires Counted(useReg, w, m, s, total, signed) && p !in m && p !in s
    ensures Counted(useReg, w, m + {p}, if ok then s + {p} else s,
                    if useReg then total + Sum(w) else Sum(w), if ok then signed + WeightOf(w, p) else signed)
  {
    SumAdd(w, s, p);
    assert |m + {p}| == |m| + 1;
    assert (|m| + 1) * Sum(w) == |m| * Sum(w) + Sum(w);
  }

  method CountVotes(r: Rule, reg: Registry, config: Weights, votes: Votes, height: nat, hash: Hash)
    returns (total: int, signed: int)
    ensures Counted(reg != map[], if reg != map[] then Standing(reg) else config,
                    Matching(r, votes, height, hash), Signed(r, votes, height, hash), total, signed)
  {
    total, signed := 0, 0;
    var useReg := reg != map[];
    ghost var w := if useReg then Standing(reg) else config;
    var rest := set k | k in votes && k.0 == height;
    ghost var m, s: set<Pub> := {}, {};
    while rest != {}
      invariant forall k :: k in rest ==> k in votes && k.0 == height && k.1 !in m && k.1 !in s
      invariant m <= Matching(r, votes, height, hash) && s <= Signed(r, votes, height, hash)
      invariant forall p :: p in Matching(r, votes, height, hash) ==> p in m || (height, p) in rest
      invariant forall p :: p in Signed(r, votes, height, hash) ==> p in s || (height, p) in rest
      invariant Counted(useReg, w, m, s, total, signed)
    {
      var k :| k in rest;
      var vr, p := votes[k], k.1;
      assert k == (height, p) && p in AllVoters(votes, height);
      rest := rest - {k};
      if vr.blockHash != hash || vr.chainId != r.chainId { continue; }
      assert p in Matching(r, votes, height, hash);
      CountedOneMore(useReg, w, m, s, total, signed, p, r.sigOk(vr));
      m, s := m + {p}, if r.sigOk(vr) then s + {p} else s;
      if useReg {
        var t, g := CountRegistry(r, reg, vr, p);
        total, signed := total + t, signed + g;
      } else {
        total := SumConfig(config);
        if p in config && r.sigOk(vr) { signed := signed + config[p]; }
      }
    }
    assert m == Matching(r, votes, height, hash) && s == Signed(r, votes, height, hash);
  }

  /** The anchor is overwritten whenever the count passes, at whatever height it stood before. */
  method TryFinalizeAnchor(db: Db, r: Rule, config: Weights, height: nat, hash: Hash)
    modifies db`anchor
    ensures db.anchor == if Reached(r, db.validators, config, db.votes, height, hash) then Some(Tip(height, hash)) else old(db.anchor)
  {
    var total, signed := CountVotes(r, db.validators, config, db.votes, height, hash);
    if total == 0 { return; }
    if total > 0 && signed * r.den >= total * r.num { db.anchor := Some(Tip(height, hash)); }
  }

  /** A vote posted to the node: the first one of a validator at a height is stored and tried
      with the weighted quorum; and, first or not, its hash is tried for the anchor. */
  method HandleVote(db: Db, r: Rule, config: Weights, v: VoteRecord) returns (ok: bool)
    modifies db`votes, db`finalized, db`finalizedHash, db`anchor
    ensures ok == (v.chainId == r.chainId && v.pubkey in config.Keys && r.sigOk(v))
    ensures !ok ==> FinalOf(db) == old(FinalOf(db)) && db.anchor == old(db.anchor)
    ensures ok ==> db.votes == Ingest(old(db.votes), v)
    ensures ok ==> FinalOf(db) == if (v.height, v.pubkey) in old(db.votes) then old(FinalOf(db))
                                  else Finalize(db.validators, old(FinalOf(db)).(votes := db.votes), v.height)
    ensures ok ==> db.anchor == if Reached(r, db.validators, config, db.votes, v.height, v.blockHash)
                                then Some(Tip(v.height, v.blockHash)) else old(db.anchor)
  {
    ok := IngestVote(db, r.chainId, config.Keys, r.sigOk, v);
    if !ok { return; }
    TryFinalizeAnchor(db, r, config, v.height, v.blockHash);
  }

  // ----- who counts, on the votes' and the registry's own fields -----

  // Validators with a stored vote at this height for this hash on this chain.
  ghost function Named(r: Rule, votes: Votes, height: nat, hash: Hash): set<Pub> {
    set k | k in votes && k.0 == height && votes[k].blockHash == hash && votes[k].chainId == r.chainId :: k.1
  }

  // Those of them that are listed here, and whose stored vote verifies.
  ghost function Vouching(r: Rule, w: Weights, votes: Votes, height: nat, hash: Hash): set<Pub> {
    set p | p in w && (height, p) in votes && votes[(height, p)].blockHash == hash && votes[(height, p)].chainId == r.chainId
            && r.sigOk(votes[(height, p)])
  }

  lemma NamedMatch(r: Rule, votes: Votes, height: nat, hash: Hash)
    ensures Matching(r, votes, height, hash) == Named(r, votes, height, hash)
  {
    forall p ensures p in Matching(r, votes, height, hash) <==> p in Named(r, votes, height, hash) {
      if (height, p) in votes { assert (height, p).1 == p && p in AllVoters(votes, height); }
    }
  }

  lemma VouchingWeigh(r: Rule, w: Weights, votes: Votes, height: nat, hash: Hash)
    ensures SumOver(w, Signed(r, votes, height, hash)) == SumOver(w, Vouching(r, w, votes, height, hash))
  {
    var s, t := Signed(r, votes, height, hash), Vouching(r, w, votes, height, hash);
    forall p | p in t ensures p in s { assert (height, p).1 == p && p in AllVoters(votes, height); }
    SumRestricted(w, w, s, t);
  }

  /** Without a registry: the anchor moves exactly when some vote for the hash on this chain is stored,
      and the configured validators whose stored vote for it verifies reach the threshold of all
      configured weight, which must be positive. */
  lemma ConfiguredReachedIff(r: Rule, config: Weights, votes: Votes, height: nat, hash: Hash)
    ensures Reached(r, map[], config, votes, height, hash) <==>
            && Named(r, votes, height, hash) != {} && SumOver(config, config.Keys) > 0
            && SumOver(config, Vouching(r, config, votes, height, hash)) * r.den >= SumOver(config, config.Keys) * r.num
  {
    NamedMatch(r, votes, height, hash);
    VouchingWeigh(r, config, votes, height, hash);
  }

  /** So, unlike with a registry, a verified vote of all configured validators moves it whenever the
      threshold is at most one. */
  lemma ConfiguredUnanimityReaches(r: Rule, config: Weights, votes: Votes, height: nat, hash: Hash)
    requires SumOver(config, config.Keys) > 0 && r.num <= r.den
    requires forall p :: p in config ==> (height, p) in votes && votes[(height, p)].blockHash == hash
                                         && votes[(height, p)].chainId == r.chainId && r.sigOk(votes[(height, p)])
    ensures Reached(r, map[], config, votes, height, hash)
  {
    var all := config.Keys;
    assert Vouching(r, config, votes, height, hash) == all;
    assert all != {};
    var p :| p in config;
    assert (height, p) in votes && (height, p).1 == p;
    assert p in Named(r, votes, height, hash);
    ConfiguredReachedIff(r, config, votes, height, hash);
    MulMono(SumOver(config, all), r.num, r.den);
  }

  // Registered and not slashed, whatever the weight.
  ghost function InGoodStanding(reg: Registry): set<Pub> { set p | p in reg && !reg[p].slashed }

  // Those of them whose stored vote for the hash on this chain verifies.
  ghost function GoodVotes(r: Rule, reg: Registry, votes: Votes, height: nat, hash: Hash): set<Pub> {
    set p | p in reg && !reg[p].slashed && (height, p) in votes && votes[(height, p)].blockHash == hash
            && votes[(height, p)].chainId == r.chainId && r.sigOk(votes[(height, p)])
  }

  /** With a registry, on weights and slashing marks as listed: slashed validators never count, and the
      total of the others is taken once for every stored vote for the hash. */
  lemma RegisteredReachedIff(r: Rule, reg: Registry, config: Weights, votes: Votes, height: nat, hash: Hash)
    requires reg != map[]
    ensures var total := |Named(r, votes, height, hash)| * SumOver(Listed(reg), InGoodStanding(reg));
            Reached(r, reg, config, votes, height, hash) <==>
            total > 0 && SumOver(Listed(reg), GoodVotes(r, reg, votes, height, hash)) * r.den >= total * r.num
  {
    var w, good := Standing(reg), GoodVotes(r, reg, votes, height, hash);
    NamedMatch(r, votes, height, hash);
    VouchingWeigh(r, w, votes, height, hash);
    assert Vouching(r, w, votes, height, hash) == good;
    assert w.Keys == InGoodStanding(reg);
    SumRestricted(Listed(reg), w, w.Keys, w.Keys);
    SumRestricted(Listed(reg), w, good, good);
  }

  // ----- what the registry count amounts to -----

  lemma SignedMatches(r: Rule, votes: Votes, height: nat, hash: Hash)
    ensures Signed(r, votes, height, hash) <= Matching(r, votes, height, hash)
  {
  }

  // A threshold above one half times two or more totals is out of reach of one total.
  lemma TwoTotalsOutOfReach(sum: nat, total: nat, n: nat, num: int, den: int)
    requires 0 < den < 2 * num && sum <= total && n >= 2 && total > 0
    ensures !ReachedThreshold(sum, n * total, num, den)
  {
    MulMono(den, sum, total);
    MulMono(total, den + 1, 2 * num);
    MulMono(total, 2, n);
    MulMono(num, 2 * total, n * total);
    assert sum * den < 2 * total * num <= n * total * num;
  }

  /** With a registry of non-negative weights and a threshold above one half, such as two
      thirds, the routine finalises exactly when there is one matching vote and its validator
      alone reaches the threshold. Any second matching vote prevents finalisation. */
  lemma RegistryReachedIff(r: Rule, reg: Registry, config: Weights, votes: Votes, height: nat, hash: Hash)
    requires reg != map[] && NonNegativeWeights(Standing(reg)) && Sum(Standing(reg)) > 0
    requires 0 < r.den < 2 * r.num
    ensures Reached(r, reg, config, votes, height, hash) <==>
      exists p :: Matching(r, votes, height, hash) == {p} && p in Signed(r, votes, height, hash)
        && WeightOf(Standing(reg), p) * r.den >= Sum(Standing(reg)) * r.num
  {
    var w, m, s := Standing(reg), Matching(r, votes, height, hash), Signed(r, votes, height, hash);
    SignedMatches(r, votes, height, hash);
    SumAtMostTotal(w, s);
    SumNonNegative(w, s);
    if |m| >= 2 {
      TwoTotalsOutOfReach(SumOver(w, s), Sum(w), |m|, r.num, r.den);
    } else if m != {} {
      var p :| p in m;
      assert |m - {p}| == |m| - 1;
      assert m == {p};
      SingleVote(w, m, s, p, r.num, r.den);
    }
  }

  lemma SingleVote(w: Weights, m: set<Pub>, s: set<Pub>, p: Pub, num: int, den: int)
    requires m == {p} && s <= m && Sum(w) > 0 && num > 0 && den > 0
    ensures ReachedThreshold(SumOver(w, s), |m| * Sum(w), num, den) <==> p in s && WeightOf(w, p) * den >= Sum(w) * num
  {
    if p in s {
      assert s == {p} && s - {p} == {};
      SumRemove(w, s, p);
    } else {
      assert s == {};
      MulMono(num, 1, Sum(w));
    }
  }

  /** So even a unanimous vote of two or more validators does not finalise. */
  lemma UnanimityDoesNotFinalise(r: Rule, reg: Registry, config: Weights, votes: Votes, height: nat, hash: Hash)
    requires reg != map[] && NonNegativeWeights(Standing(reg)) && Sum(Standing(reg)) > 0 && 0 < r.den < 2 * r.num
    requires Signed(r, votes, height, hash) == Standing(reg).Keys && |Standing(reg)| >= 2
    ensures !Reached(r, reg, config, votes, height, hash)
  {
    RegistryReachedIff(r, reg, config, votes, height, hash);
    SignedMatches(r, votes, height, hash);
    if Reached(r, reg, config, votes, height, hash) {
      var p :| Matching(r, votes, height, hash) == {p};
      assert Standing(reg).Keys <= {p};
      SubsetOfOne(Standing(reg).Keys, p);
    }
  }

  lemma SubsetOfOne(s: set<Pub>, p: Pub)
    requires s <= {p}
    ensures |s| <= 1
  {
    if p in s { assert s == {p}; } else { assert s == {}; }
  }

  // One validator of weight one, registered and configured, its vote for a block, and a rule that
  // accepts every signature.
  function Sole(): Registry { map["v" := Validator("v", 1, false)] }

  function SoleConfig(): Weights { map["v" := 1] }

  function SoleVote(height: nat, hash: Hash): VoteRecord { VoteRecord(height, hash, "c", "v", "") }

  function TwoThirds(): Rule { Rule("c", 2, 3, _ => true) }

  /** So any block at any height, also one below the present anchor, can become the anchor: the sole
      validator's first vote at a height does it, whatever it voted for at others. */
  lemma AnyAnchorReached(votes: Votes, height: nat, hash: Hash)
    requires (height, "v") !in votes && forall k :: k in votes ==> k.1 == "v"
    ensures Reached(TwoThirds(), Sole(), SoleConfig(), Ingest(votes, SoleVote(height, hash)), height, hash)
  {
    var r, reg, after := TwoThirds(), Sole(), Ingest(votes, SoleVote(height, hash));
    var w := Standing(reg);
    assert w == map["v" := 1];
    SumRemove(w, {"v"}, "v");
    assert {"v"} - {"v"} == {} && w.Keys == {"v"};
    assert (height, "v") in after && "v" in AllVoters(after, height);
    assert Matching(r, after, height, hash) == {"v"};
    assert "v" in Signed(r, after, height, hash);
    RegistryReachedIff(r, reg, SoleConfig(), after, height, hash);
    assert Matching(r, after, height, hash) == {"v"} && WeightOf(w, "v") * 3 >= Sum(w) * 2;
  }

  /** Whatever the threshold, at most its inverse many matching votes can pass. */
  lemma MatchingVotesBound(r: Rule, reg: Registry, config: Weights, votes: Votes, height: nat, hash: Hash)
    requires reg != map[] && NonNegativeWeights(Standing(reg)) && r.num > 0 && r.den > 0
    requires Reached(r, reg, config, votes, height, hash)
    ensures 0 < |Matching(r, votes, height, hash)| * r.num <= r.den
  {
    var w, m, s := Standing(reg), Matching(r, votes, height, hash), Signed(r, votes, height, hash);
    SumAtMostTotal(w, s);
    SumNonNegative(w, w.Keys);
    VotesBound(SumOver(w, s), Sum(w), |m|, r.num, r.den);
  }

  lemma VotesBound(sum: int, total: nat, n: nat, num: int, den: int)
    requires sum <= total && num > 0 && den > 0 && ReachedThreshold(sum, n * total, num, den)
    ensures 0 < n * num <= den
  {
    PositiveFactors(n, total);
    MulMono(den, sum, total);
    MulAssoc3(n, total, num);
    if n * num > den { MulMono(total, den + 1, n * num); }
    MulMono(num, 1, n);
  }

  lemma PositiveFactors(a: nat, b: nat)
    requires a * b > 0
    ensures a > 0 && b > 0
  {
  }

  lemma MulAssoc3(a: int, b: int, c: int)
    ensures a * b * c == b * (a * c)
  {
  }
}

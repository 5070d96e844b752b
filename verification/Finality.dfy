/** Weighted checkpoint finality (core/node/finality_weighted.go, the vote store in
    internal/reservestorage/finality_votes.go, and vote ingest in core/node/node.go). */
module Finality {
  import opened Wrappers
  import opened ChainTypes
  import opened Storage
  import opened WeightedSets

  type Votes = map<(nat, Pub), VoteRecord>
  type Registry = map<Pub, Validator>

  // ----- quorums -----

  // The weights that count: neither slashed nor non-positive.
  function Active(reg: Registry): (w: Weights)
    ensures NonNegativeWeights(w)
  {
    map p | p in reg && !reg[p].slashed && reg[p].weight > 0 :: reg[p].weight
  }

  ghost function TotalWeight(reg: Registry): int { SumOver(Active(reg), Active(reg).Keys) }

  // The validators whose stored vote at this height is for this hash.
  ghost function Voters(votes: Votes, height: nat, hash: Hash): set<Pub> {
    set k | k in votes && k.0 == height && votes[k].blockHash == hash :: k.1
  }

  ghost function Tally(reg: Registry, votes: Votes, height: nat, hash: Hash): int {
    SumOver(Active(reg), Voters(votes, height, hash))
  }

  ghost predicate Quorum(reg: Registry, votes: Votes, height: nat, hash: Hash) {
    TotalWeight(reg) > 0 && 3 * Tally(reg, votes, height, hash) >= 2 * TotalWeight(reg)
  }

  /** Accountable intersection. Two vote stores under one registry with quorums for any two
      hashes at a height: validators with at least a third of the weight have a recorded vote
      for the one in the first store and for the other in the second. */
  lemma QuorumsIntersect(reg: Registry, votesA: Votes, votesB: Votes, height: nat, a: Hash, b: Hash)
    requires Quorum(reg, votesA, height, a) && Quorum(reg, votesB, height, b)
    ensures 3 * SumOver(Active(reg), Voters(votesA, height, a) * Voters(votesB, height, b)) >= TotalWeight(reg)
  {
    var sa, sb := Voters(votesA, height, a), Voters(votesB, height, b);
    InclusionExclusion(Active(reg), sa, sb);
    SumAtMostTotal(Active(reg), sa + sb);
  }

  /** In one store, which holds one vote per validator and height, the quorum hash is unique. */
  lemma QuorumUnique(reg: Registry, votes: Votes, height: nat, a: Hash, b: Hash)
    requires Quorum(reg, votes, height, a) && Quorum(reg, votes, height, b)
    ensures a == b
  {
    QuorumsIntersect(reg, votes, votes, height, a, b);
    if a != b { VotersDisjoint(votes, height, a, b); }
  }

  lemma VotersDisjoint(votes: Votes, height: nat, a: Hash, b: Hash)
    requires a != b
    ensures Voters(votes, height, a) * Voters(votes, height, b) == {}
  {
  }

  // Votes are only ever added.
  ghost predicate Extends(votes: Votes, later: Votes) {
    forall k :: k in votes ==> k in later && later[k] == votes[k]
  }

  lemma QuorumStays(reg: Registry, votes: Votes, later: Votes, height: nat, hash: Hash)
    requires Extends(votes, later) && Quorum(reg, votes, height, hash)
    ensures Quorum(reg, later, height, hash)
  {
    var s, s' := Voters(votes, height, hash), Voters(later, height, hash);
    forall p | p in s ensures p in s' {
      var k :| k in votes && k.0 == height && votes[k].blockHash == hash && k.1 == p;
      assert k in later && later[k].blockHash == hash;
    }
    SumMonotone(Active(reg), s, s');
  }

  // ----- who counts, on the registry's own fields -----

  function Listed(reg: Registry): Weights { map p | p in reg :: reg[p].weight }

  // Validators that are neither slashed nor without weight.
  ghost function Eligible(reg: Registry): set<Pub> { set p | p in reg && !reg[p].slashed && reg[p].weight > 0 }

  // Those of them whose stored vote at this height is for this hash.
  ghost function Backers(reg: Registry, votes: Votes, height: nat, hash: Hash): set<Pub> {
    set p | p in reg && !reg[p].slashed && reg[p].weight > 0 && (height, p) in votes && votes[(height, p)].blockHash == hash
  }

  lemma TotalIsEligible(reg: Registry)
    ensures TotalWeight(reg) == SumOver(Listed(reg), Eligible(reg))
  {
    assert Active(reg).Keys == Eligible(reg);
    SumRestricted(Listed(reg), Active(reg), Eligible(reg), Eligible(reg));
  }

  lemma InVoters(votes: Votes, height: nat, hash: Hash, p: Pub)
    ensures p in Voters(votes, height, hash) <==> (height, p) in votes && votes[(height, p)].blockHash == hash
  {
    if (height, p) in votes && votes[(height, p)].blockHash == hash { assert (height, p).1 == p; }
  }

  lemma TallyIsBackers(reg: Registry, votes: Votes, height: nat, hash: Hash)
    ensures Tally(reg, votes, height, hash) == SumOver(Listed(reg), Backers(reg, votes, height, hash))
  {
    var s, t := Voters(votes, height, hash), Backers(reg, votes, height, hash);
    forall p ensures p in t ==> p in s { InVoters(votes, height, hash, p); }
    forall p | p in s ensures WeightOf(Active(reg), p) == if p in t then WeightOf(Listed(reg), p) else 0 {
      InVoters(votes, height, hash, p);
    }
    SumRestricted(Listed(reg), Active(reg), s, t);
  }

  /** The rule, on weights and slashing marks as listed: a hash has a quorum exactly when the validators
      that are not slashed, have positive weight and voted for it weigh two thirds of all that are
      not slashed and have positive weight, and there is such weight at all. */
  lemma QuorumIff(reg: Registry, votes: Votes, height: nat, hash: Hash)
    ensures Quorum(reg, votes, height, hash) <==>
            && SumOver(Listed(reg), Eligible(reg)) > 0
            && 3 * SumOver(Listed(reg), Backers(reg, votes, height, hash)) >= 2 * SumOver(Listed(reg), Eligible(reg))
  {
    TotalIsEligible(reg);
    TallyIsBackers(reg, votes, height, hash);
  }

  /** So a hash for which only slashed or unregistered validators voted has none. */
  lemma SlashedVotersDecideNothing(reg: Registry, votes: Votes, height: nat, hash: Hash)
    requires forall p :: (height, p) in votes && votes[(height, p)].blockHash == hash && p in reg ==> reg[p].slashed
    ensures !Quorum(reg, votes, height, hash)
  {
    QuorumIff(reg, votes, height, hash);
    assert Backers(reg, votes, height, hash) == {};
  }

  // The registry without the entries that do not count.
  function Cleared(reg: Registry): Registry { map p | p in reg && !reg[p].slashed && reg[p].weight > 0 :: reg[p] }

  // ----- the finalisation step -----

  datatype Final = Final(votes: Votes, height: Option<nat>, hash: Hash)

  ghost function FinalOf(db: Db): Final
    reads db
  {
    Final(db.votes, db.finalized, db.finalizedHash)
  }

  function HeightOf(f: Final): nat { if f.height.Some? then f.height.value else 0 }

  // A checkpoint with a quorum above the finalised height becomes the finalised one.
  ghost function Finalize(reg: Registry, f: Final, height: nat): Final {
    if height > HeightOf(f) && exists h :: Quorum(reg, f.votes, height, h)
    then var h :| Quorum(reg, f.votes, height, h); f.(height := Some(height), hash := h)
    else f
  }

  /** Removing every slashed or weightless entry from the registry changes no quorum and no outcome. */
  lemma ClearedDecidesAlike(reg: Registry, f: Final, height: nat, hash: Hash)
    ensures Quorum(Cleared(reg), f.votes, height, hash) <==> Quorum(reg, f.votes, height, hash)
    ensures Finalize(Cleared(reg), f, height) == Finalize(reg, f, height)
  {
    assert Active(Cleared(reg)) == Active(reg);
    forall h ensures Quorum(Cleared(reg), f.votes, height, h) <==> Quorum(reg, f.votes, height, h) { }
    forall a, b | Quorum(reg, f.votes, height, a) && Quorum(reg, f.votes, height, b) ensures a == b {
      QuorumUnique(reg, f.votes, height, a, b);
    }
  }

  /** A finalisation attempt changes anything exactly when its height is above the finalised one, or
      above zero if there is none, and some hash has a quorum there; then that hash is finalised. */
  lemma FinalizeIff(reg: Registry, f: Final, height: nat, hash: Hash)
    ensures (height > 0 && (f.height.Some? ==> height > f.height.value) && Quorum(reg, f.votes, height, hash)) ==>
            Finalize(reg, f, height) == Final(f.votes, Some(height), hash)
    ensures !(height > 0 && (f.height.Some? ==> height > f.height.value) && exists h :: Quorum(reg, f.votes, height, h)) ==>
            Finalize(reg, f, height) == f
  {
    forall h | Quorum(reg, f.votes, height, hash) && Quorum(reg, f.votes, height, h) ensures h == hash {
      QuorumUnique(reg, f.votes, height, h, hash);
    }
  }

  method WeighValidators(reg: Registry) returns (weightByPub: Weights, totalW: int)
    ensures weightByPub == Active(reg) && totalW == TotalWeight(reg)
  {
    weightByPub, totalW := map[], 0;
    var rest := reg.Keys;
    while rest != {}
      invariant rest <= reg.Keys
      invariant weightByPub == map p | p in Active(reg) && p !in rest :: Active(reg)[p]
      invariant totalW == SumOver(Active(reg), weightByPub.Keys)
    {
      var p :| p in rest;
      rest := rest - {p};
      if reg[p].slashed || reg[p].weight <= 0 { continue; }
      SumAdd(Active(reg), weightByPub.Keys, p);
      ghost var before := weightByPub.Keys;
      weightByPub := weightByPub[p := reg[p].weight];
      assert weightByPub.Keys == before + {p};
      totalW := totalW + reg[p].weight;
    }
    assert weightByPub == Active(reg);
  }

  // The voters for a hash among a set of validators.
  ghost function VotersIn(votes: Votes, height: nat, hash: Hash, among: set<Pub>): set<Pub> {
    set p | p in among && (height, p) in votes && votes[(height, p)].blockHash == hash
  }

  ghost function AllVoters(votes: Votes, height: nat): set<Pub> { set k | k in votes && k.0 == height :: k.1 }

  lemma VotersInAll(votes: Votes, height: nat, hash: Hash)
    ensures VotersIn(votes, height, hash, AllVoters(votes, height)) == Voters(votes, height, hash)
  {
    var s, t := VotersIn(votes, height, hash, AllVoters(votes, height)), Voters(votes, height, hash);
    forall p | p in s ensures p in t { assert (height, p) in votes && (height, p).1 == p; }
    forall p | p in t ensures p in s {
      var k :| k in votes && k.0 == height && votes[k].blockHash == hash && k.1 == p;
      assert k == (height, p);
    }
  }

  function TallyOf(tally: map<Hash, int>, h: Hash): int { if h in tally then tally[h] else 0 }

  method TallyVotes(votes: Votes, height: nat, weightByPub: Weights) returns (tally: map<Hash, int>)
    requires NonNegativeWeights(weightByPub)
    ensures forall h :: TallyOf(tally, h) == SumOver(weightByPub, Voters(votes, height, h))
  {
    tally := map[];
    var rest := set k | k in votes && k.0 == height;
    ghost var done: set<Pub> := {};
    while rest != {}
      invariant forall k :: k in rest ==> k in votes && k.0 == height && k.1 !in done
      invariant forall k :: k in votes && k.0 == height ==> k in rest || k.1 in done
      invariant done <= AllVoters(votes, height)
      invariant forall h :: TallyOf(tally, h) == SumOver(weightByPub, VotersIn(votes, height, h, done))
    {
      var k :| k in rest;
      var vr, p := votes[k], k.1;
      assert k == (height, p);
      TallyOneMore(votes, height, weightByPub, tally, done, p);
      rest := rest - {k};
      done := done + {p};
      var w := WeightOf(weightByPub, p);
      if w <= 0 { continue; }
      tally := tally[vr.blockHash := TallyOf(tally, vr.blockHash) + w];
    }
    forall h ensures TallyOf(tally, h) == SumOver(weightByPub, Voters(votes, height, h)) {
      assert done == AllVoters(votes, height);
      VotersInAll(votes, height, h);
    }
  }

  // One more vote raises the tally of its own hash only.
  lemma TallyOneMore(votes: Votes, height: nat, w: Weights, tally: map<Hash, int>, done: set<Pub>, p: Pub)
    requires p !in done && (height, p) in votes
    requires forall h :: TallyOf(tally, h) == SumOver(w, VotersIn(votes, height, h, done))
    ensures forall h :: SumOver(w, VotersIn(votes, height, h, done + {p}))
              == TallyOf(tally, h) + if h == votes[(height, p)].blockHash then WeightOf(w, p) else 0
  {
    forall h ensures SumOver(w, VotersIn(votes, height, h, done + {p}))
              == TallyOf(tally, h) + if h == votes[(height, p)].blockHash then WeightOf(w, p) else 0
    {
      var s := VotersIn(votes, height, h, done);
      if h == votes[(height, p)].blockHash {
        assert VotersIn(votes, height, h, done + {p}) == s + {p};
        SumAdd(w, s, p);
      } else {
        assert VotersIn(votes, height, h, done + {p}) == s;
      }
    }
  }

  // The heaviest hash, found in whatever order the tally happens to be visited.
  method Heaviest(tally: map<Hash, int>) returns (bestHash: Hash, bestW: int)
    ensures bestW >= 0 && forall h :: h in tally ==> tally[h] <= bestW
    ensures bestW > 0 ==> bestHash in tally && tally[bestHash] == bestW
  {
    bestHash, bestW := "", 0;
    var rest := tally.Keys;
    while rest != {}
      invariant rest <= tally.Keys && bestW >= 0
      invariant forall h :: h in tally && h !in rest ==> tally[h] <= bestW
      invariant bestW > 0 ==> bestHash in tally && tally[bestHash] == bestW
    {
      var h :| h in rest;
      rest := rest - {h};
      if tally[h] > bestW { bestHash, bestW := h, tally[h]; }
    }
  }

  /** The outcome is a function of the registry, the votes and the finalised height alone: it
      does not depend on the order in which validators, votes or tallies are visited. */
  method TryFinalizeHeight(db: Db, height: nat)
    modifies db`finalized, db`finalizedHash
    ensures FinalOf(db) == Finalize(db.validators, old(FinalOf(db)), height)
  {
    var weightByPub, totalW := WeighValidators(db.validators);
    if totalW <= 0 { return; }
    var tally := TallyVotes(db.votes, height, weightByPub);
    var bestHash, bestW := Heaviest(tally);
    BestIsQuorum(db.validators, db.votes, height, tally, bestHash, bestW);
    if bestW * 3 < totalW * 2 { return; }
    assert Quorum(db.validators, db.votes, height, bestHash);
    var finH := if db.finalized.Some? then db.finalized.value else 0;
    if height > finH {
      db.finalized := Some(height);
      db.finalizedHash := bestHash;
    }
  }

  lemma BestIsQuorum(reg: Registry, votes: Votes, height: nat, tally: map<Hash, int>, bestHash: Hash, bestW: int)
    requires TotalWeight(reg) > 0
    requires forall h :: TallyOf(tally, h) == Tally(reg, votes, height, h)
    requires bestW >= 0 && forall h :: h in tally ==> tally[h] <= bestW
    requires bestW > 0 ==> bestHash in tally && tally[bestHash] == bestW
    ensures bestW * 3 >= TotalWeight(reg) * 2 ==> forall h :: Quorum(reg, votes, height, h) <==> h == bestHash
    ensures bestW * 3 < TotalWeight(reg) * 2 ==> forall h :: !Quorum(reg, votes, height, h)
  {
    forall h ensures Tally(reg, votes, height, h) <= bestW {
      assert TallyOf(tally, h) == Tally(reg, votes, height, h);
    }
    if bestW * 3 >= TotalWeight(reg) * 2 {
      assert TallyOf(tally, bestHash) == Tally(reg, votes, height, bestHash);
      forall h | Quorum(reg, votes, height, h) ensures h == bestHash { QuorumUnique(reg, votes, height, h, bestHash); }
    }
  }

  // ----- vote ingest, and runs -----

  // A vote that passed the checks is stored unless its validator already has one at that height.
  function Ingest(votes: Votes, v: VoteRecord): Votes {
    if (v.height, v.pubkey) in votes then votes else votes[(v.height, v.pubkey) := v]
  }

  method IngestVote(db: Db, chainId: string, known: set<Pub>, sigOk: VoteRecord -> bool, v: VoteRecord) returns (ok: bool)
    modifies db`votes, db`finalized, db`finalizedHash
    ensures ok == (v.chainId == chainId && v.pubkey in known && sigOk(v))
    ensures !ok ==> FinalOf(db) == old(FinalOf(db))
    ensures ok && (v.height, v.pubkey) in old(db.votes) ==> FinalOf(db) == old(FinalOf(db))
    ensures ok && (v.height, v.pubkey) !in old(db.votes) ==>
      FinalOf(db) == Finalize(db.validators, old(FinalOf(db)).(votes := Ingest(old(db.votes), v)), v.height)
  {
    if v.chainId != chainId { return false; }
    if v.pubkey !in known { return false; }
    if !sigOk(v) { return false; }
    if (v.height, v.pubkey) !in db.votes {
      db.votes := db.votes[(v.height, v.pubkey) := v];
      TryFinalizeHeight(db, v.height);
    }
    return true;
  }

  datatype Event = Voted(vote: VoteRecord) | Tried(height: nat)

  ghost function After(reg: Registry, f: Final, e: Event): Final {
    match e
    case Voted(v) => f.(votes := Ingest(f.votes, v))
    case Tried(h) => Finalize(reg, f, h)
  }

  ghost function Run(reg: Registry, f: Final, events: seq<Event>): Final
    decreases |events|
  {
    if events == [] then f else Run(reg, After(reg, f, events[0]), events[1..])
  }

  // What is finalised has a quorum in the votes at hand.
  ghost predicate Justified(reg: Registry, f: Final) {
    f.height.Some? ==> Quorum(reg, f.votes, f.height.value, f.hash)
  }

  lemma StepKeeps(reg: Registry, f: Final, e: Event)
    requires Justified(reg, f)
    ensures var f' := After(reg, f, e);
            && Justified(reg, f') && Extends(f.votes, f'.votes)
            && HeightOf(f') >= HeightOf(f) && (f'.height == f.height ==> f'.hash == f.hash)
            && (f.height.Some? ==> f'.height.Some?)
  {
    var f' := After(reg, f, e);
    if f.height.Some? && e.Voted? { QuorumStays(reg, f.votes, f'.votes, f.height.value, f.hash); }
  }

  /** Over every interleaving of votes and finalisation attempts, under a fixed registry: first
      votes are never replaced; the finalised height only rises; and what is finalised keeps
      its quorum, so that no other hash can ever get one at its height. */
  lemma {:induction false} FinalityIrreversible(reg: Registry, f: Final, events: seq<Event>)
    requires Justified(reg, f)
    ensures var f' := Run(reg, f, events);
            && Justified(reg, f') && Extends(f.votes, f'.votes)
            && HeightOf(f') >= HeightOf(f) && (f'.height == f.height ==> f'.hash == f.hash)
            && (f.height.Some? ==> f'.height.Some? && forall h :: Quorum(reg, f'.votes, f.height.value, h) <==> h == f.hash)
    decreases |events|
  {
    if events != [] {
      StepKeeps(reg, f, events[0]);
      FinalityIrreversible(reg, After(reg, f, events[0]), events[1..]);
    }
    var f' := Run(reg, f, events);
    if f.height.Some? {
      QuorumStays(reg, f.votes, f'.votes, f.height.value, f.hash);
      forall h | Quorum(reg, f'.votes, f.height.value, h) ensures h == f.hash {
        QuorumUnique(reg, f'.votes, f.height.value, h, f.hash);
      }
    }
  }

  // A node that has seen no votes and finalised nothing.
  function Fresh(): Final { Final(map[], None, "") }

  // Validators that count and have a recorded vote for the one hash here and the other there.
  ghost function Culprits(reg: Registry, a: Final, b: Final, height: nat): set<Pub> {
    Backers(reg, a.votes, height, a.hash) * Backers(reg, b.votes, height, b.hash)
  }

  /** Two nodes that start fresh under one registry and, whatever each of them saw, finalise
      different hashes at one height: validators with at least a third of the weight have a
      recorded vote for both; none of them is slashed, and each has positive weight. */
  lemma ConflictIsAccountable(reg: Registry, eventsA: seq<Event>, eventsB: seq<Event>)
    requires var a, b := Run(reg, Fresh(), eventsA), Run(reg, Fresh(), eventsB);
             a.height.Some? && a.height == b.height && a.hash != b.hash
    ensures var a, b := Run(reg, Fresh(), eventsA), Run(reg, Fresh(), eventsB);
            3 * SumOver(Active(reg), Voters(a.votes, a.height.value, a.hash) * Voters(b.votes, b.height.value, b.hash))
            >= TotalWeight(reg) > 0
    ensures var a, b := Run(reg, Fresh(), eventsA), Run(reg, Fresh(), eventsB);
            var guilty := Culprits(reg, a, b, a.height.value);
            && (forall p :: p in guilty ==> p in reg && !reg[p].slashed && reg[p].weight > 0)
            && 3 * SumOver(Listed(reg), guilty) >= SumOver(Listed(reg), Eligible(reg)) > 0
  {
    FinalityIrreversible(reg, Fresh(), eventsA);
    FinalityIrreversible(reg, Fresh(), eventsB);
    var a, b := Run(reg, Fresh(), eventsA), Run(reg, Fresh(), eventsB);
    QuorumsIntersect(reg, a.votes, b.votes, a.height.value, a.hash, b.hash);
    CulpritsWeigh(reg, a, b, a.height.value);
    TotalIsEligible(reg);
  }

  lemma CulpritsWeigh(reg: Registry, a: Final, b: Final, height: nat)
    ensures SumOver(Active(reg), Voters(a.votes, height, a.hash) * Voters(b.votes, height, b.hash))
            == SumOver(Listed(reg), Culprits(reg, a, b, height))
  {
    var s, t := Voters(a.votes, height, a.hash) * Voters(b.votes, height, b.hash), Culprits(reg, a, b, height);
    forall p ensures p in t ==> p in s {
      InVoters(a.votes, height, a.hash, p);
      InVoters(b.votes, height, b.hash, p);
    }
    forall p | p in s ensures WeightOf(Active(reg), p) == if p in t then WeightOf(Listed(reg), p) else 0 {
      InVoters(a.votes, height, a.hash, p);
      InVoters(b.votes, height, b.hash, p);
    }
    SumRestricted(Listed(reg), Active(reg), s, t);
  }
}

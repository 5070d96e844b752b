/** The proportional payout of the participation pool (core/economics/pop/pop.go,
    DrainFeePool in internal/reservestorage/fees.go). */
module Payout {
  import opened ChainTypes
  import opened Arithmetic
  import opened LedgerSpec
  import opened Storage
  import opened Conservation

  datatype Params = Params(epochBlocks: nat, minPayout: nat)

  const DefaultParams := Params(50, 100)

  // ----- weights and shares -----

  // A score replaces the registered weight; whoever is registered without weight gets nothing.
  function WeightOf(p: Participant, scores: map<string, nat>): nat {
    if p.weight <= 0 then 0
    else if p.id in scores && scores[p.id] > 0 then scores[p.id]
    else p.weight
  }

  function WeightsOf(parts: seq<Participant>, scores: map<string, nat>): (ws: seq<nat>)
    ensures |ws| == |parts| && forall i :: 0 <= i < |parts| ==> ws[i] == WeightOf(parts[i], scores)
  {
    seq(|parts|, i requires 0 <= i < |parts| => WeightOf(parts[i], scores))
  }

  function Sum(ws: seq<nat>): nat {
    if ws == [] then 0 else Sum(ws[..|ws| - 1]) + ws[|ws| - 1]
  }

  function Floor(drain: nat, w: nat, total: nat): nat
    requires total > 0
  {
    Quot(drain * w, total)
  }

  function Floors(drain: nat, ws: seq<nat>, total: nat): (fs: seq<nat>)
    requires total > 0
    ensures |fs| == |ws| && forall i :: 0 <= i < |ws| ==> fs[i] == Floor(drain, ws[i], total)
  {
    seq(|ws|, i requires 0 <= i < |ws| => Floor(drain, ws[i], total))
  }

  lemma {:induction false} FloorsBound(drain: nat, ws: seq<nat>, total: nat)
    requires total > 0
    ensures total * Sum(Floors(drain, ws, total)) <= drain * Sum(ws)
    ensures ws != [] ==> drain * Sum(ws) < total * (Sum(Floors(drain, ws, total)) + |ws|)
    decreases |ws|
  {
    if ws != [] {
      var n := |ws| - 1;
      var w, fs := ws[n], Floors(drain, ws, total);
      FloorsBound(drain, ws[..n], total);
      assert fs[..n] == Floors(drain, ws[..n], total);
      Euclid(drain * w, total);
      AddUp(drain, total, Sum(ws[..n]), w, Sum(fs[..n]), fs[n], n);
    }
  }

  lemma AddUp(drain: nat, total: nat, s: nat, w: nat, f: nat, q: nat, n: nat)
    requires total * f <= drain * s && (n > 0 ==> drain * s < total * (f + n)) && (n == 0 ==> s == 0)
    requires total * q <= drain * w < total * (q + 1)
    ensures total * (f + q) <= drain * (s + w)
    ensures drain * (s + w) < total * (f + q + (n + 1))
  {
    assert drain * (s + w) == drain * s + drain * w;
    assert total * (f + q) == total * f + total * q;
    assert total * (f + q + (n + 1)) == total * (f + n) + total * (q + 1);
    assert total * (f + n) >= 0;
  }

  /** Rounding down never pays out more than there is, and leaves less than one unit per
      participant. */
  lemma DustBound(drain: nat, ws: seq<nat>)
    requires Sum(ws) > 0
    ensures var f := Sum(Floors(drain, ws, Sum(ws))); f <= drain < f + |ws|
  {
    DustWithin(drain, ws, Sum(ws), Sum(Floors(drain, ws, Sum(ws))));
  }

  lemma DustWithin(drain: nat, ws: seq<nat>, total: nat, f: nat)
    requires total == Sum(ws) && total > 0 && f == Sum(Floors(drain, ws, total))
    ensures f <= drain < f + |ws|
  {
    FloorsBound(drain, ws, total);
    CancelTotal(total, Sum(ws), drain, f, |ws|);
  }

  lemma CancelTotal(total: nat, s: nat, drain: nat, f: nat, n: nat)
    requires s == total > 0 && total * f <= drain * s && drain * s < total * (f + n)
    ensures f <= drain < f + n
  {
    assert total * (drain + 1) == drain * s + total;
    MulCancel(total, f, drain + 1);
    MulCancel(total, drain, f + n);
  }

  predicate Divides(d: nat, n: nat)
    requires d > 0
  {
    d * Quot(n, d) == n
  }

  // Every proportional share is a whole number.
  ghost predicate NoRounding(drain: nat, ws: seq<nat>, total: nat)
    requires total > 0
  {
    forall i :: 0 <= i < |ws| ==> Divides(total, drain * ws[i])
  }

  lemma {:induction false} FloorsExactIff(drain: nat, ws: seq<nat>, total: nat)
    requires total > 0
    ensures total * Sum(Floors(drain, ws, total)) == drain * Sum(ws) <==> NoRounding(drain, ws, total)
    decreases |ws|
  {
    if ws != [] {
      var n := |ws| - 1;
      var fs, front := Floors(drain, ws, total), ws[..n];
      assert fs[..n] == Floors(drain, front, total);
      FloorsExactIff(drain, front, total);
      FloorsBound(drain, front, total);
      Euclid(drain * ws[n], total);
      LastTerm(drain, total, Sum(front), ws[n], Sum(fs[..n]), fs[n]);
      NoRoundingLast(drain, ws, total);
    }
  }

  lemma NoRoundingLast(drain: nat, ws: seq<nat>, total: nat)
    requires total > 0 && ws != []
    ensures var n := |ws| - 1;
            NoRounding(drain, ws, total) <==> NoRounding(drain, ws[..n], total) && Divides(total, drain * ws[n])
  {
    var n := |ws| - 1;
    assert forall i :: 0 <= i < n ==> ws[..n][i] == ws[i];
  }

  lemma LastTerm(drain: nat, total: nat, s: nat, w: nat, f: nat, q: nat)
    requires total * f <= drain * s && total * q <= drain * w
    ensures total * (f + q) == drain * (s + w) <==> total * f == drain * s && total * q == drain * w
  {
    assert drain * (s + w) == drain * s + drain * w;
    assert total * (f + q) == total * f + total * q;
  }

  lemma NothingLostIff(drain: nat, ws: seq<nat>, total: nat, f: nat)
    requires total == Sum(ws) && total > 0 && f == Sum(Floors(drain, ws, total))
    ensures f == drain <==> NoRounding(drain, ws, total)
  {
    FloorsExactIff(drain, ws, total);
    SameFactor(total, f, drain);
  }

  lemma SameFactor(total: nat, a: nat, b: nat)
    requires total > 0
    ensures total * a == b * total <==> a == b
  {
    if a < b { MulMono(total, a + 1, b); }
    if b < a { MulMono(total, b + 1, a); }
  }

  // The last entry also takes whatever the others leave of the drained pool.
  function TopUp(fs: seq<nat>, drain: nat): (shares: seq<nat>)
    requires fs != [] && Sum(fs) <= drain
    ensures |shares| == |fs|
  {
    fs[|fs| - 1 := fs[|fs| - 1] + (drain - Sum(fs))]
  }

  lemma TopUpSum(fs: seq<nat>, drain: nat)
    requires fs != [] && Sum(fs) <= drain
    ensures Sum(TopUp(fs, drain)) == drain
  {
    assert TopUp(fs, drain)[..|fs| - 1] == fs[..|fs| - 1];
  }

  lemma TopUpAt(fs: seq<nat>, drain: nat, i: nat)
    requires Sum(fs) <= drain && i < |fs|
    ensures Sum(fs[..i + 1]) == Sum(fs[..i]) + fs[i]
    ensures TopUp(fs, drain)[i] == if i == |fs| - 1 then drain - Sum(fs[..i]) else fs[i]
  {
    assert fs[..i + 1][..i] == fs[..i];
    if i == |fs| - 1 { assert fs[..i + 1] == fs; }
  }

  // What each participant is paid: its floor, and the last one, if it counts at all, the rest.
  function Shares(drain: nat, parts: seq<Participant>, ws: seq<nat>): (shares: seq<nat>)
    requires |ws| == |parts| && Sum(ws) > 0
    ensures |shares| == |parts|
  {
    var fs := Floors(drain, ws, Sum(ws));
    DustBound(drain, ws);
    if parts[|parts| - 1].weight <= 0 then fs else TopUp(fs, drain)
  }

  /** Everyone gets at least the floor of its proportional share, all but the last exactly
      that, and the last at most one unit less than the number of participants on top. */
  lemma SharesAreFair(drain: nat, parts: seq<Participant>, ws: seq<nat>, i: nat)
    requires |ws| == |parts| && Sum(ws) > 0 && i < |parts|
    ensures var s, f := Shares(drain, parts, ws)[i], Floor(drain, ws[i], Sum(ws));
            f <= s < f + |parts| && (i < |parts| - 1 ==> s == f)
  {
    DustBound(drain, ws);
  }

  /** The shares add up to the whole pool exactly when the last participant counts or every
      proportional share is a whole number. */
  lemma SharesAddUpIff(drain: nat, parts: seq<Participant>, ws: seq<nat>)
    requires |ws| == |parts| && Sum(ws) > 0
    ensures Sum(Shares(drain, parts, ws)) <= drain
    ensures Sum(Shares(drain, parts, ws)) == drain <==>
            parts[|parts| - 1].weight > 0 || NoRounding(drain, ws, Sum(ws))
  {
    var fs := Floors(drain, ws, Sum(ws));
    DustBound(drain, ws);
    NothingLostIff(drain, ws, Sum(ws), Sum(fs));
    TopUpSum(fs, drain);
  }

  // ----- paying -----

  function Account(p: Participant): Id { "pop:" + p.id }

  // Credits participants 0 to n-1; a zero share is not written at all.
  function Paid(bal: Balances, parts: seq<Participant>, shares: seq<nat>, n: nat): Balances
    requires n <= |parts| == |shares|
  {
    if n == 0 then bal
    else
      var b := Paid(bal, parts, shares, n - 1);
      if shares[n - 1] == 0 then b else Credit(b, Account(parts[n - 1]), shares[n - 1])
  }

  lemma {:induction false} PaidTotal(bal: Balances, parts: seq<Participant>, shares: seq<nat>, n: nat)
    requires n <= |parts| == |shares|
    ensures Total(Paid(bal, parts, shares, n)) == Total(bal) + Sum(shares[..n])
    ensures NonNegative(bal) ==> NonNegative(Paid(bal, parts, shares, n))
  {
    if n > 0 {
      PaidTotal(bal, parts, shares, n - 1);
      assert shares[..n][..n - 1] == shares[..n - 1];
      TotalCredit(Paid(bal, parts, shares, n - 1), Account(parts[n - 1]), shares[n - 1]);
    }
  }

  predicate Due(height: nat, params: Params, pool: nat, ws: seq<nat>) {
    height > 0 && params.epochBlocks > 0 && height % params.epochBlocks == 0 && pool >= params.minPayout && Sum(ws) > 0
  }

  function Effective(params: Params): Params { if params.epochBlocks == 0 then DefaultParams else params }

  lemma PayoutConservesIff(bal: Balances, drain: nat, parts: seq<Participant>, ws: seq<nat>)
    requires |ws| == |parts| && Sum(ws) > 0
    ensures var after := Total(Paid(bal, parts, Shares(drain, parts, ws), |parts|));
            && (after == Total(bal) + drain <==> parts[|parts| - 1].weight > 0 || NoRounding(drain, ws, Sum(ws)))
            && (parts[|parts| - 1].weight <= 0 ==> after == Total(bal) + Sum(Floors(drain, ws, Sum(ws))))
  {
    var shares := Shares(drain, parts, ws);
    PaidTotal(bal, parts, shares, |parts|);
    assert shares[..|parts|] == shares;
    SharesAddUpIff(drain, parts, ws);
  }

  // ----- registered participants -----

  ghost predicate Registered(parts: seq<Participant>) { forall i :: 0 <= i < |parts| ==> parts[i].weight >= 1 }

  /** Registration never stores a weight below one, keeps one entry per id, and leaves the other
      participants alone. */
  method Register(db: Db, id: string, weight: int) returns (ok: bool)
    requires forall i, j :: 0 <= i < j < |db.participants| ==> db.participants[i].id != db.participants[j].id
    modifies db`participants
    ensures ok == (id != "") && (!ok ==> db.participants == old(db.participants))
    ensures forall i, j :: 0 <= i < j < |db.participants| ==> db.participants[i].id != db.participants[j].id
    ensures ok ==> forall p :: p in db.participants <==>
      p == Participant(id, if weight <= 0 then 1 else weight) || (p in old(db.participants) && p.id != id)
    ensures Registered(old(db.participants)) ==> Registered(db.participants)
  {
    if id == "" { return false; }
    var p := Participant(id, if weight <= 0 then 1 else weight);
    for i := 0 to |db.participants|
      invariant forall k :: 0 <= k < i ==> db.participants[k].id != id
    {
      if db.participants[i].id == id {
        db.participants := db.participants[i := p];
        assert db.participants[i] == p;
        assert forall k :: 0 <= k < |db.participants| && k != i ==> db.participants[k] == old(db.participants)[k];
        return true;
      }
    }
    db.participants := db.participants + [p];
    return true;
  }

  lemma {:induction false} RegisteredWeigh(parts: seq<Participant>, scores: map<string, nat>)
    requires Registered(parts)
    ensures Sum(WeightsOf(parts, scores)) >= |parts|
    decreases |parts|
  {
    if parts != [] {
      var n := |parts| - 1;
      RegisteredWeigh(parts[..n], scores);
      assert WeightsOf(parts, scores)[..n] == WeightsOf(parts[..n], scores);
    }
  }

  /** Payout conservation: among registered participants a payout moves exactly the pool into
      their balances, whatever the scores and however the division comes out. */
  lemma RegisteredPayoutConserves(bal: Balances, drain: nat, parts: seq<Participant>, scores: map<string, nat>)
    requires Registered(parts) && parts != []
    ensures var ws := WeightsOf(parts, scores);
            Sum(ws) > 0 && Total(Paid(bal, parts, Shares(drain, parts, ws), |parts|)) == Total(bal) + drain
  {
    RegisteredWeigh(parts, scores);
    PayoutConservesIff(bal, drain, parts, WeightsOf(parts, scores));
  }

  // ----- as the source runs it -----

  method WeighParticipants(parts: seq<Participant>, scores: map<string, nat>) returns (weights: seq<nat>, totalW: nat)
    ensures weights == WeightsOf(parts, scores) && totalW == Sum(weights)
  {
    weights, totalW := [], 0;
    for i := 0 to |parts|
      invariant weights == WeightsOf(parts, scores)[..i] && totalW == Sum(weights)
    {
      var p := parts[i];
      var w := 0;
      if p.weight > 0 {
        w := if p.id in scores then scores[p.id] else 0;
        if w <= 0 { w := p.weight; }
      }
      ghost var before := weights;
      weights := weights + [w];
      assert weights[..|weights| - 1] == before;
      totalW := totalW + w;
    }
  }

  // The share the loop pays in round i, given what the rounds before it left over.
  lemma ShareAt(drain: nat, parts: seq<Participant>, ws: seq<nat>, i: nat)
    requires |ws| == |parts| && Sum(ws) > 0 && i < |parts|
    requires parts[i].weight <= 0 ==> ws[i] == 0
    ensures var fs, s := Floors(drain, ws, Sum(ws)), Shares(drain, parts, ws)[i];
            && Sum(fs[..i + 1]) == Sum(fs[..i]) + fs[i]
            && (parts[i].weight <= 0 ==> s == 0 == fs[i])
            && (parts[i].weight > 0 ==> s == if i == |parts| - 1 then drain - Sum(fs[..i]) else fs[i])
  {
    DustBound(drain, ws);
    TopUpAt(Floors(drain, ws, Sum(ws)), drain, i);
    FloorOfZero(drain, Sum(ws));
  }

  method PayShares(db: Db, drain: nat, weights: seq<nat>, totalW: nat) returns (ok: bool, remaining: int)
    requires |weights| == |db.participants| && totalW == Sum(weights) > 0
    requires forall i :: 0 <= i < |weights| ==> db.participants[i].weight <= 0 ==> weights[i] == 0
    modifies db`bal
    ensures NonNegative(old(db.bal)) ==>
      ok && db.bal == Paid(old(db.bal), db.participants, Shares(drain, db.participants, weights), |db.participants|)
  {
    var parts := db.participants;
    remaining := drain;
    ghost var fs, shares := Floors(drain, weights, totalW), Shares(drain, parts, weights);
    ok := true;
    for i := 0 to |parts|
      invariant db.participants == parts
      invariant NonNegative(old(db.bal)) ==> ok && NonNegative(db.bal) && db.bal == Paid(old(db.bal), parts, shares, i)
      invariant i < |parts| ==> remaining == drain - Sum(fs[..i])
    {
      ShareAt(drain, parts, weights, i);
      if parts[i].weight <= 0 { continue; }
      var share: int := Quot(drain * weights[i], totalW);
      if i == |parts| - 1 { share := remaining; }
      if share <= 0 { continue; }
      remaining := remaining - share;
      ok := PayOne(db, parts[i], share);
      if !ok { return; }
    }
  }

  method PayOne(db: Db, p: Participant, share: int) returns (ok: bool)
    requires share > 0
    modifies db`bal
    ensures NonNegative(old(db.bal)) ==> ok && NonNegative(db.bal) && db.bal == Credit(old(db.bal), Account(p), share)
  {
    ok := AddBalance(db, Account(p), share);
  }

  lemma FloorOfZero(drain: nat, total: nat)
    requires total > 0
    ensures Floor(drain, 0, total) == 0
  {
    assert drain * 0 == 0;
  }

  /** Either nothing is due and nothing changes, or the whole pool is paid out in shares and
      the scores start over. */
  method DistributeIfEpoch(db: Db, height: nat, params0: Params) returns (paid: int)
    modifies db`feePool, db`bal, db`scores
    ensures NonNegative(old(db.bal)) ==>
      var params, ws := Effective(params0), WeightsOf(db.participants, old(db.scores));
      if Due(height, params, old(db.feePool), ws) then
        && paid == old(db.feePool) && db.feePool == 0 && db.scores == map[]
        && db.bal == Paid(old(db.bal), db.participants, Shares(old(db.feePool), db.participants, ws), |db.participants|)
      else
        paid == 0 && db.feePool == old(db.feePool) && db.bal == old(db.bal) && db.scores == old(db.scores)
  {
    var params := if params0.epochBlocks == 0 then DefaultParams else params0;
    if height == 0 || height % params.epochBlocks != 0 { return 0; }
    var drain := db.feePool;
    db.feePool := 0;
    if drain < params.minPayout {
      db.feePool := drain;
      return 0;
    }
    var weights, totalW := WeighParticipants(db.participants, db.scores);
    if totalW <= 0 {
      db.feePool := drain;
      return 0;
    }
    var ok, remaining := PayShares(db, drain, weights, totalW);
    if !ok { return drain - remaining; }
    db.scores := map[];
    return drain;
  }

  // ----- what decides a share -----

  function SumScores(parts: seq<Participant>, scores: map<string, nat>): nat
    requires forall i :: 0 <= i < |parts| ==> parts[i].id in scores
  {
    if parts == [] then 0 else scores[parts[0].id] + SumScores(parts[1..], scores)
  }

  lemma {:induction false} SumCons(ws: seq<nat>)
    requires ws != []
    ensures Sum(ws) == ws[0] + Sum(ws[1..])
    decreases |ws|
  {
    var n := |ws| - 1;
    if n > 0 {
      SumCons(ws[..n]);
      assert ws[..n][1..] == ws[1..][..n - 1];
    }
  }

  lemma {:induction false} ScoresAddUp(parts: seq<Participant>, scores: map<string, nat>)
    requires forall i :: 0 <= i < |parts| ==> parts[i].weight > 0 && parts[i].id in scores && scores[parts[i].id] > 0
    ensures Sum(WeightsOf(parts, scores)) == SumScores(parts, scores)
    decreases |parts|
  {
    if parts != [] {
      ScoresAddUp(parts[1..], scores);
      SumCons(WeightsOf(parts, scores));
      assert WeightsOf(parts, scores)[1..] == WeightsOf(parts[1..], scores);
    }
  }

  /** Where everybody has a positive score, the scores decide, whatever the registered weights: each
      floor is the largest whole number not above the pool times the score over all scores. */
  lemma ScoresDecide(drain: nat, parts: seq<Participant>, scores: map<string, nat>, i: nat)
    requires forall j :: 0 <= j < |parts| ==> parts[j].weight > 0 && parts[j].id in scores && scores[parts[j].id] > 0
    requires i < |parts|
    ensures Sum(WeightsOf(parts, scores)) == SumScores(parts, scores) > 0
    ensures var all, f := SumScores(parts, scores), Floors(drain, WeightsOf(parts, scores), SumScores(parts, scores))[i];
            all * f <= drain * scores[parts[i].id] < all * (f + 1)
  {
    ScoresAddUp(parts, scores);
    assert SumScores(parts, scores) == scores[parts[0].id] + SumScores(parts[1..], scores);
    FloorAt(drain, WeightsOf(parts, scores), SumScores(parts, scores), i, scores[parts[i].id]);
  }

  lemma FloorAt(drain: nat, ws: seq<nat>, total: nat, i: nat, w: nat)
    requires total > 0 && i < |ws| && ws[i] == w
    ensures var f := Floors(drain, ws, total)[i]; total * f <= drain * w < total * (f + 1)
  {
    Euclid(drain * w, total);
  }

  /** A participant without a positive score counts with its registered weight, and one without weight
      not at all, whatever its score. */
  lemma OtherwiseWeightsDecide(parts: seq<Participant>, scores: map<string, nat>, i: nat)
    requires i < |parts|
    ensures parts[i].weight > 0 && (parts[i].id !in scores || scores[parts[i].id] == 0) ==> WeightsOf(parts, scores)[i] == parts[i].weight
    ensures parts[i].weight <= 0 ==> WeightsOf(parts, scores)[i] == 0
  {
  }

  lemma {:induction false} PaidTo(bal: Balances, parts: seq<Participant>, shares: seq<nat>, n: nat, i: nat)
    requires n <= |parts| == |shares| && i < |parts|
    requires forall j, k :: 0 <= j < k < |parts| ==> parts[j].id != parts[k].id
    ensures Balance(Paid(bal, parts, shares, n), "pop:" + parts[i].id) ==
            Balance(bal, "pop:" + parts[i].id) + if i < n then shares[i] else 0
    decreases n
  {
    if n > 0 {
      PaidTo(bal, parts, shares, n - 1, i);
      var a, b := parts[i].id, parts[n - 1].id;
      assert "pop:" + a == "pop:" + b <==> a == b by { assert ("pop:" + a)[4..] == a && ("pop:" + b)[4..] == b; }
    }
  }

  /** Each participant's own account "pop:" and id is credited with its share, if no id is listed twice. */
  lemma EachIsPaid(bal: Balances, parts: seq<Participant>, shares: seq<nat>, i: nat)
    requires |parts| == |shares| && i < |parts|
    requires forall j, k :: 0 <= j < k < |parts| ==> parts[j].id != parts[k].id
    ensures Balance(Paid(bal, parts, shares, |parts|), "pop:" + parts[i].id) == Balance(bal, "pop:" + parts[i].id) + shares[i]
  {
    PaidTo(bal, parts, shares, |parts|, i);
  }

  /** A payout is due exactly at the positive multiples of the epoch length, when the pool holds the
      minimum and somebody counts. An epoch length of zero stands for 50 blocks and a minimum of 100. */
  lemma DueIff(height: nat, params: Params, pool: nat, ws: seq<nat>)
    ensures Due(height, params, pool, ws) <==>
            && params.epochBlocks > 0 && pool >= params.minPayout
            && (exists k :: k > 0 && height == k * params.epochBlocks)
            && (exists i :: 0 <= i < |ws| && ws[i] > 0)
    ensures params.epochBlocks == 0 ==> Effective(params) == Params(50, 100)
    ensures params.epochBlocks != 0 ==> Effective(params) == params
  {
    if params.epochBlocks > 0 { MultipleIff(height, params.epochBlocks); }
    PositiveIff(ws);
  }

  lemma MultipleIff(height: nat, n: nat)
    requires n > 0
    ensures height > 0 && height % n == 0 <==> exists k :: k > 0 && height == k * n
  {
    if height > 0 && height % n == 0 {
      var k := height / n;
      assert height == k * n;
      assert k > 0;
    }
    if k :| k > 0 && height == k * n { NoRemainder(height, k, n); }
  }

  lemma NoRemainder(height: nat, k: nat, n: nat)
    requires k > 0 && n > 0 && height == k * n
    ensures height > 0 && height % n == 0
  {
    var q, r := height / n, height % n;
    assert height == q * n + r;
    assert r == (k - q) * n;
    MulMono(n, 1, k);
    if k - q >= 1 { MulMono(n, 1, k - q); } else { MulMono(n, k - q, 0); }
  }

  lemma {:induction false} PositiveIff(ws: seq<nat>)
    ensures Sum(ws) > 0 <==> exists i :: 0 <= i < |ws| && ws[i] > 0
    decreases |ws|
  {
    if ws != [] {
      var n := |ws| - 1;
      PositiveIff(ws[..n]);
      if i :| 0 <= i < n && ws[i] > 0 { assert ws[..n][i] > 0; }
      if i :| 0 <= i < |ws[..n]| && ws[..n][i] > 0 { assert ws[i] > 0; }
    }
  }
}

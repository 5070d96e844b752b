/** Sums of weights over sets of validators. A validator without an entry weighs nothing. */
module WeightedSets {

  type Pub = string
  type Weights = map<Pub, int>

  function WeightOf(w: Weights, p: Pub): int { if p in w then w[p] else 0 }

  ghost predicate NonNegativeWeights(w: Weights) { forall p :: p in w ==> w[p] >= 0 }

  ghost function SumOver(w: Weights, s: set<Pub>): int {
    if s == {} then 0 else var p :| p in s; WeightOf(w, p) + SumOver(w, s - {p})
  }

  lemma {:induction false} SumRemove(w: Weights, s: set<Pub>, p: Pub)
    requires p in s
    ensures SumOver(w, s) == WeightOf(w, p) + SumOver(w, s - {p})
    decreases |s|
  {
    var q :| q in s && SumOver(w, s) == WeightOf(w, q) + SumOver(w, s - {q});
    if q != p {
      SumRemove(w, s - {q}, p);
      SumRemove(w, s - {p}, q);
      assert s - {q} - {p} == s - {p} - {q};
    }
  }

  lemma SumAdd(w: Weights, s: set<Pub>, p: Pub)
    requires p !in s
    ensures SumOver(w, s + {p}) == SumOver(w, s) + WeightOf(w, p)
  {
    SumRemove(w, s + {p}, p);
    assert s + {p} - {p} == s;
  }

  lemma {:induction false} InclusionExclusion(w: Weights, a: set<Pub>, b: set<Pub>)
    ensures SumOver(w, a + b) + SumOver(w, a * b) == SumOver(w, a) + SumOver(w, b)
    decreases |a|
  {
    if a == {} {
      assert a + b == b && a * b == {};
    } else {
      var p :| p in a;
      var a' := a - {p};
      InclusionExclusion(w, a', b);
      SumRemove(w, a, p);
      if p in b {
        assert a + b == a' + b;
        assert a * b == a' * b + {p};
        SumAdd(w, a' * b, p);
      } else {
        assert a + b == a' + b + {p};
        assert a * b == a' * b;
        SumAdd(w, a' + b, p);
      }
    }
  }

  lemma {:induction false} SumNonNegative(w: Weights, s: set<Pub>)
    requires NonNegativeWeights(w)
    ensures SumOver(w, s) >= 0
    decreases |s|
  {
    if s != {} {
      var p :| p in s;
      SumRemove(w, s, p);
      SumNonNegative(w, s - {p});
    }
  }

  lemma SumMonotone(w: Weights, a: set<Pub>, b: set<Pub>)
    requires NonNegativeWeights(w) && a <= b
    ensures SumOver(w, a) <= SumOver(w, b)
  {
    InclusionExclusion(w, a, b - a);
    assert a + (b - a) == b && a * (b - a) == {};
    SumNonNegative(w, b - a);
  }

  // Nobody outside the weights adds anything.
  lemma SumAtMostTotal(w: Weights, s: set<Pub>)
    requires NonNegativeWeights(w)
    ensures SumOver(w, s) <= SumOver(w, w.Keys)
  {
    InclusionExclusion(w, s * w.Keys, s - w.Keys);
    assert s * w.Keys + (s - w.Keys) == s && (s * w.Keys) * (s - w.Keys) == {};
    SumOutside(w, s - w.Keys);
    SumMonotone(w, s * w.Keys, w.Keys);
  }

  lemma {:induction false} SumOutside(w: Weights, s: set<Pub>)
    requires s !! w.Keys
    ensures SumOver(w, s) == 0
    decreases |s|
  {
    if s != {} {
      var p :| p in s;
      SumRemove(w, s, p);
      SumOutside(w, s - {p});
    }
  }

  // Weighing with only some of the validators is weighing only those.
  lemma {:induction false} SumRestricted(w: Weights, some: Weights, s: set<Pub>, t: set<Pub>)
    requires t <= s && forall p :: p in s ==> WeightOf(some, p) == if p in t then WeightOf(w, p) else 0
    ensures SumOver(some, s) == SumOver(w, t)
    decreases |s|
  {
    if s == {} {
      assert t == {};
    } else {
      var p :| p in s;
      SumRemove(some, s, p);
      if p in t {
        SumRemove(w, t, p);
        SumRestricted(w, some, s - {p}, t - {p});
      } else {
        SumRestricted(w, some, s - {p}, t);
      }
    }
  }
}

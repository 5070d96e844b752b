/** Parent links: ancestors by height and the ascending path to a tip, over any store of
    headers (internal/reservestorage/header_ancestors.go, ancestors.go). */
module Ancestry {
  import opened Wrappers
  import opened ChainTypes

  type Store = map<Hash, Header>

  // The parent of a stored header, if it is stored too, sits one height lower.
  ghost predicate Linked(s: Store) {
    forall h :: h in s && s[h].height > 0 && s[h].prev in s ==> s[s[h].prev].height == s[h].height - 1
  }

  // Moreover the parent is always stored.
  ghost predicate Closed(s: Store) {
    forall h :: h in s && s[h].height > 0 ==> s[h].prev in s && s[s[h].prev].height == s[h].height - 1
  }

  ghost function Rank(s: Store, h: Hash): nat { if h in s then s[h].height + 1 else 0 }

  ghost function AncestorAt(s: Store, tip: Hash, target: nat): (r: Option<Hash>)
    requires Linked(s)
    ensures r.Some? ==> r.value in s && s[r.value].height == target && tip in s && target <= s[tip].height
    decreases Rank(s, tip)
  {
    if tip !in s || s[tip].height < target then None
    else if s[tip].height == target then Some(tip)
    else AncestorAt(s, s[tip].prev, target)
  }

  // The hashes from height `from` up to the tip; none if a header on the way is missing.
  ghost function PathUp(s: Store, tip: Hash, from: nat): (r: Option<seq<Hash>>)
    requires Linked(s)
    ensures r.Some? ==> tip in s
    ensures r.Some? ==> |r.value| == if s[tip].height < from then 0 else s[tip].height - from + 1
    ensures r.Some? ==> forall i :: 0 <= i < |r.value| ==> r.value[i] in s && s[r.value[i]].height == from + i
    decreases Rank(s, tip)
  {
    if tip !in s then None
    else if s[tip].height < from then Some([])
    else if s[tip].height == from then Some([tip])
    else
      match PathUp(s, s[tip].prev, from)
      case None => None
      case Some(p) => Some(p + [tip])
  }

  /** The path agrees with the ancestor lookup at every height, starts at `from`, ends in the
      tip, and every entry is the parent of the next. */
  lemma {:induction false} PathIsAncestry(s: Store, tip: Hash, from: nat)
    requires Linked(s) && PathUp(s, tip, from).Some?
    ensures var p := PathUp(s, tip, from).value;
            && (forall i :: 0 <= i < |p| ==> AncestorAt(s, tip, from + i) == Some(p[i]))
            && (p != [] ==> p[|p| - 1] == tip)
            && (forall i :: 0 < i < |p| ==> s[p[i]].prev == p[i - 1])
    decreases Rank(s, tip)
  {
    if s[tip].height > from { PathIsAncestry(s, s[tip].prev, from); }
  }

  // Only one linked sequence of hashes leads up to a given tip.
  lemma {:induction false} PathUnique(s: Store, p: seq<Hash>, from: nat)
    requires Linked(s) && p != []
    requires forall i :: 0 <= i < |p| ==> p[i] in s && s[p[i]].height == from + i
    requires forall i :: 0 < i < |p| ==> s[p[i]].prev == p[i - 1]
    ensures PathUp(s, p[|p| - 1], from) == Some(p)
    decreases |p|
  {
    assert p == p[..|p| - 1] + [p[|p| - 1]];
    if |p| > 1 { PathUnique(s, p[..|p| - 1], from); }
  }

  lemma {:induction false} AncestorThrough(s: Store, tip: Hash, high: nat, low: nat)
    requires Linked(s) && low <= high && AncestorAt(s, tip, high).Some?
    ensures AncestorAt(s, tip, low) == AncestorAt(s, AncestorAt(s, tip, high).value, low)
    decreases Rank(s, tip)
  {
    if s[tip].height > high { AncestorThrough(s, s[tip].prev, high, low); }
  }

  lemma {:induction false} AncestorExists(s: Store, tip: Hash, target: nat)
    requires Closed(s) && tip in s && target <= s[tip].height
    ensures AncestorAt(s, tip, target).Some?
    decreases Rank(s, tip)
  {
    if s[tip].height > target { AncestorExists(s, s[tip].prev, target); }
  }

  // Storing more headers changes no ancestor in a closed store.
  lemma {:induction false} AncestorStable(s: Store, bigger: Store, tip: Hash, target: nat)
    requires Closed(s) && Linked(bigger) && tip in s
    requires forall h :: h in s ==> h in bigger && bigger[h] == s[h]
    ensures AncestorAt(bigger, tip, target) == AncestorAt(s, tip, target)
    decreases Rank(s, tip)
  {
    if s[tip].height > target { AncestorStable(s, bigger, s[tip].prev, target); }
  }

  /** The lookup as the source runs it, walking parent pointers down from the tip. */
  method GetAncestorHashAtHeight(s: Store, tip: Hash, target: nat) returns (r: Option<Hash>)
    requires Linked(s)
    ensures r == AncestorAt(s, tip, target)
  {
    var cur := tip;
    while true
      invariant AncestorAt(s, cur, target) == AncestorAt(s, tip, target)
      decreases Rank(s, cur)
    {
      if cur !in s { return None; }
      if s[cur].height == target { return Some(cur); }
      if s[cur].height < target { return None; }
      if s[cur].height == 0 { return None; }
      cur := s[cur].prev;
    }
  }
}

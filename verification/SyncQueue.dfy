/** The block-fetch queue and its workers (core/node/sync_manager.go). Every method of the
    manager runs under its mutex; a worker's check, pop and add are three separate calls. */
module SyncQueue {
  import opened Wrappers
  import opened ChainTypes

  datatype Queue = Queue(pending: seq<Hash>, inflight: map<Hash, int>)

  // ----- the queue's operations -----

  // Appends, in order, the hashes that are neither queued nor in flight.
  function Enqueue(q: Queue, hashes: seq<Hash>): Queue
    decreases |hashes|
  {
    if hashes == [] then q
    else if hashes[0] == "" || hashes[0] in q.pending || hashes[0] in q.inflight then Enqueue(q, hashes[1..])
    else Enqueue(q.(pending := q.pending + [hashes[0]]), hashes[1..])
  }

  ghost predicate NoDuplicates(s: seq<Hash>) { forall i, j :: 0 <= i < j < |s| ==> s[i] != s[j] }

  predicate TimedOut(q: Queue, h: Hash, now: int, timeoutSec: int) {
    h in q.inflight && now - q.inflight[h] > timeoutSec
  }

  // The requeued hashes go first, in whatever order they were visited.
  function Requeue(q: Queue, req: seq<Hash>): Queue {
    Queue(req + q.pending, map h | h in q.inflight && h !in req :: q.inflight[h])
  }

  class SyncManager {
    var pending: seq<Hash>
    var inflight: map<Hash, int>

    ghost function Contents(): Queue
      reads this
    {
      Queue(pending, inflight)
    }

    constructor ()
      ensures Contents() == Queue([], map[])
    {
      pending, inflight := [], map[];
    }

    method SetHeaders(hashes: seq<Hash>)
      modifies this`pending
      ensures Contents() == Enqueue(old(Contents()), hashes)
    {
      var known := (set h | h in pending) + inflight.Keys;
      for i := 0 to |hashes|
        invariant forall h :: h in known <==> h in pending || h in inflight
        invariant Enqueue(Contents(), hashes[i..]) == Enqueue(old(Contents()), hashes)
      {
        assert hashes[i..][1..] == hashes[i + 1..];
        var h := hashes[i];
        if h == "" || h in known { continue; }
        pending := pending + [h];
        known := known + {h};
      }
    }

    method AddInFlight(h: Hash, now: int)
      modifies this`inflight
      ensures inflight == old(inflight)[h := now]
    {
      inflight := inflight[h := now];
    }

    method ClearInFlight(h: Hash)
      modifies this`inflight
      ensures inflight == old(inflight) - {h}
    {
      inflight := inflight - {h};
    }

    method PopPending() returns (r: Option<Hash>)
      modifies this`pending
      ensures old(pending) == (if r.Some? then [r.value] else []) + pending
      ensures r.None? ==> old(pending) == []
    {
      if |pending| == 0 { return None; }
      r := Some(pending[0]);
      pending := pending[1..];
    }

    /** Moves exactly the timed-out hashes, each once, from in-flight to the front. */
    method RequeueTimedOut(now: int, timeoutSec: int) returns (req: seq<Hash>)
      modifies this
      ensures NoDuplicates(req) && forall h :: h in req <==> h in old(inflight) && now - old(inflight)[h] > timeoutSec
      ensures Contents() == Requeue(old(Contents()), req)
      ensures pending == req + old(pending) && inflight == old(inflight) - set h | h in req
    {
      req := [];
      var rest := inflight.Keys;
      while rest != {}
        invariant rest <= old(inflight).Keys && pending == old(pending) && NoDuplicates(req)
        invariant forall h :: h in req <==> h !in rest && TimedOut(old(Contents()), h, now, timeoutSec)
        invariant inflight == map h | h in old(inflight) && h !in req :: old(inflight)[h]
      {
        var h :| h in rest;
        assert h !in req;
        rest := rest - {h};
        if now - inflight[h] > timeoutSec {
          req := req + [h];
          inflight := inflight - {h};
        }
      }
      if |req| > 0 { pending := req + pending; }
    }
  }

  // ----- workers and interleavings -----

  // Where a fetch worker stands: before the check, past it, or with a hash in hand.
  datatype Worker = Idle | Armed | Holding(hash: Hash)

  // `wanted` collects what was asked for and not cleared since.
  datatype Sys = Sys(q: Queue, workers: seq<Worker>, wanted: set<Hash>)

  datatype Event =
    | Enqueued(hashes: seq<Hash>)
    | Checked(w: nat)
    | Popped(w: nat)
    | Added(w: nat, now: int)
    | Fetched(w: nat, now: int)  // pop and add as one step
    | Cleared(hash: Hash)
    | Requeued(req: seq<Hash>)

  ghost predicate Enabled(s: Sys, e: Event) {
    match e
    case Enqueued(_) => true
    case Checked(w) => w < |s.workers| && s.workers[w].Idle?
    case Popped(w) => w < |s.workers| && s.workers[w].Armed?
    case Added(w, _) => w < |s.workers| && s.workers[w].Holding?
    case Fetched(w, _) => w < |s.workers| && s.workers[w].Armed?
    case Cleared(_) => true
    case Requeued(req) => NoDuplicates(req) && forall h :: h in req ==> h in s.q.inflight
  }

  ghost function Step(max: nat, s: Sys, e: Event): Sys
    requires Enabled(s, e)
  {
    match e
    case Enqueued(hashes) => s.(q := Enqueue(s.q, hashes), wanted := s.wanted + set h | h in hashes && h != "")
    case Checked(w) => if |s.q.inflight| >= max then s else s.(workers := s.workers[w := Armed])
    case Popped(w) =>
      if s.q.pending == [] then s.(workers := s.workers[w := Idle])
      else s.(q := s.q.(pending := s.q.pending[1..]), workers := s.workers[w := Holding(s.q.pending[0])])
    case Added(w, now) =>
      s.(q := s.q.(inflight := s.q.inflight[s.workers[w].hash := now]), workers := s.workers[w := Idle])
    case Fetched(w, now) =>
      if s.q.pending == [] then s.(workers := s.workers[w := Idle])
      else s.(q := Queue(s.q.pending[1..], s.q.inflight[s.q.pending[0] := now]), workers := s.workers[w := Idle])
    case Cleared(h) => s.(q := s.q.(inflight := s.q.inflight - {h}), wanted := s.wanted - {h})
    case Requeued(req) => s.(q := Requeue(s.q, req))
  }

  ghost predicate AllEnabled(max: nat, s: Sys, events: seq<Event>)
    decreases |events|
  {
    events != [] ==> Enabled(s, events[0]) && AllEnabled(max, Step(max, s, events[0]), events[1..])
  }

  ghost function Run(max: nat, s: Sys, events: seq<Event>): Sys
    requires AllEnabled(max, s, events)
    decreases |events|
  {
    if events == [] then s else Run(max, Step(max, s, events[0]), events[1..])
  }

  function Start(workers: nat): Sys { Sys(Queue([], map[]), seq(workers, _ => Idle), {}) }

  // ----- how many blocks can be in flight -----

  function Busy(ws: seq<Worker>): nat {
    if ws == [] then 0 else Busy(ws[..|ws| - 1]) + if ws[|ws| - 1].Idle? then 0 else 1
  }

  lemma {:induction false} BusyBound(ws: seq<Worker>)
    ensures Busy(ws) <= |ws|
    ensures (forall i :: 0 <= i < |ws| ==> ws[i].Idle?) ==> Busy(ws) == 0
    decreases |ws|
  {
    if ws != [] { BusyBound(ws[..|ws| - 1]); }
  }

  lemma {:induction false} BusyUpdate(ws: seq<Worker>, w: nat, p: Worker)
    requires w < |ws|
    ensures Busy(ws[w := p]) == Busy(ws) - (if ws[w].Idle? then 0 else 1) + (if p.Idle? then 0 else 1)
    decreases |ws|
  {
    var n := |ws| - 1;
    if w < n {
      BusyUpdate(ws[..n], w, p);
      assert ws[w := p][..n] == ws[..n][w := p];
    } else {
      assert ws[w := p][..n] == ws[..n];
    }
  }

  ghost predicate WithinBound(max: nat, s: Sys) {
    |s.q.inflight| + Busy(s.workers) <= max + |s.workers| - 1
  }

  lemma MapGrowth(m: map<Hash, int>, h: Hash, now: int)
    ensures |m[h := now]| <= |m| + 1 && |m - {h}| <= |m|
  {
    assert m[h := now].Keys == m.Keys + {h};
    assert (m - {h}).Keys == m.Keys - {h};
    assert |m.Keys - {h}| <= |m.Keys|;
  }

  lemma RequeueShrinks(q: Queue, req: seq<Hash>)
    ensures |Requeue(q, req).inflight| <= |q.inflight|
  {
    SubsetSize(Requeue(q, req).inflight.Keys, q.inflight.Keys);
  }

  lemma {:induction false} SubsetSize(a: set<Hash>, b: set<Hash>)
    requires a <= b
    ensures |a| <= |b|
    decreases |a|
  {
    if a != {} {
      var x :| x in a;
      SubsetSize(a - {x}, b - {x});
    }
  }

  lemma {:induction false} EnqueueKeepsInflight(q: Queue, hashes: seq<Hash>)
    ensures Enqueue(q, hashes).inflight == q.inflight
    decreases |hashes|
  {
    if hashes != [] {
      EnqueueKeepsInflight(q, hashes[1..]);
      EnqueueKeepsInflight(q.(pending := q.pending + [hashes[0]]), hashes[1..]);
    }
  }

  lemma StepWithinBound(max: nat, s: Sys, e: Event)
    requires Enabled(s, e) && WithinBound(max, s)
    ensures WithinBound(max, Step(max, s, e)) && |Step(max, s, e).workers| == |s.workers|
  {
    match e
    case Enqueued(hashes) => EnqueueKeepsInflight(s.q, hashes);
    case Checked(w) =>
      BusyUpdate(s.workers, w, Armed);
      BusyBound(s.workers[w := Armed]);
    case Popped(w) =>
      BusyUpdate(s.workers, w, Idle);
      if s.q.pending != [] { BusyUpdate(s.workers, w, Holding(s.q.pending[0])); }
    case Added(w, now) =>
      BusyUpdate(s.workers, w, Idle);
      MapGrowth(s.q.inflight, s.workers[w].hash, now);
    case Fetched(w, now) =>
      BusyUpdate(s.workers, w, Idle);
      if s.q.pending != [] { MapGrowth(s.q.inflight, s.q.pending[0], now); }
    case Cleared(h) => MapGrowth(s.q.inflight, h, 0);
    case Requeued(req) => RequeueShrinks(s.q, req);
  }

  lemma {:induction false} RunWithinBound(max: nat, s: Sys, events: seq<Event>)
    requires AllEnabled(max, s, events) && WithinBound(max, s)
    ensures WithinBound(max, Run(max, s, events)) && |Run(max, s, events).workers| == |s.workers|
    decreases |events|
  {
    if events != [] {
      StepWithinBound(max, s, events[0]);
      RunWithinBound(max, Step(max, s, events[0]), events[1..]);
    }
  }

  /** However the workers' steps interleave with each other and with the rest, the blocks in
      flight never exceed the configured maximum by as much as the number of workers. */
  lemma InFlightBound(max: nat, workers: nat, events: seq<Event>)
    requires max + workers >= 1 && AllEnabled(max, Start(workers), events)
    ensures |Run(max, Start(workers), events).q.inflight| <= max + workers - 1
  {
    BusyBound(Start(workers).workers);
    RunWithinBound(max, Start(workers), events);
  }

  // ----- nothing wanted is lost -----

  ghost predicate Held(s: Sys, h: Hash) { exists w :: 0 <= w < |s.workers| && s.workers[w] == Holding(h) }

  ghost predicate NothingLost(s: Sys) {
    forall h :: h in s.wanted ==> h in s.q.pending || h in s.q.inflight || Held(s, h)
  }

  lemma {:induction false} EnqueueAdds(q: Queue, hashes: seq<Hash>, h: Hash)
    ensures h in Enqueue(q, hashes).pending <==>
            h in q.pending || (h in hashes && h != "" && h !in q.inflight)
    decreases |hashes|
  {
    if hashes != [] {
      EnqueueAdds(q, hashes[1..], h);
      EnqueueAdds(q.(pending := q.pending + [hashes[0]]), hashes[1..], h);
      assert h in hashes <==> h == hashes[0] || h in hashes[1..];
    }
  }

  lemma StepLosesNothing(max: nat, s: Sys, e: Event)
    requires Enabled(s, e) && NothingLost(s)
    ensures NothingLost(Step(max, s, e))
  {
    var s' := Step(max, s, e);
    forall h | h in s'.wanted ensures h in s'.q.pending || h in s'.q.inflight || Held(s', h) {
      WantedStays(max, s, e, h);
    }
  }

  lemma WantedStays(max: nat, s: Sys, e: Event, h: Hash)
    requires Enabled(s, e) && NothingLost(s) && h in Step(max, s, e).wanted
    ensures var s' := Step(max, s, e); h in s'.q.pending || h in s'.q.inflight || Held(s', h)
  {
    var s' := Step(max, s, e);
    if e.Enqueued? {
      EnqueueAdds(s.q, e.hashes, h);
      EnqueueKeepsInflight(s.q, e.hashes);
    }
    if e.Requeued? && h in s.q.inflight && h in e.req { assert h in e.req + s.q.pending; }
    if Held(s, h) {
      var v :| 0 <= v < |s.workers| && s.workers[v] == Holding(h);
      assert (e.Added? && e.w == v) || s'.workers[v] == Holding(h);
    } else if (e.Popped? || e.Fetched?) && h in s.q.pending {
      assert s.q.pending == [s.q.pending[0]] + s.q.pending[1..];
      if e.Popped? && h == s.q.pending[0] { assert s'.workers[e.w] == Holding(h); }
    }
  }

  /** No hash that was asked for and not cleared is ever lost, whatever the interleaving. */
  lemma {:induction false} RunLosesNothing(max: nat, s: Sys, events: seq<Event>)
    requires AllEnabled(max, s, events) && NothingLost(s)
    ensures NothingLost(Run(max, s, events))
    decreases |events|
  {
    if events != [] {
      StepLosesNothing(max, s, events[0]);
      RunLosesNothing(max, Step(max, s, events[0]), events[1..]);
    }
  }

  // ----- when a hash is fetched only once -----

  // Every hash is in at most one place, and there once.
  ghost predicate Distinct(s: Sys) {
    && NoDuplicates(s.q.pending)
    && (forall h :: h in s.q.pending ==> h !in s.q.inflight && !Held(s, h))
    && (forall w :: 0 <= w < |s.workers| && s.workers[w].Holding? ==> s.workers[w].hash !in s.q.inflight)
    && (forall v, w :: 0 <= v < w < |s.workers| && s.workers[v].Holding? && s.workers[w].Holding?
          ==> s.workers[v].hash != s.workers[w].hash)
  }

  // A header announcement that names a hash some worker has in hand.
  ghost predicate NamesHeld(s: Sys, e: Event) {
    e.Enqueued? && exists h :: h in e.hashes && h != "" && Held(s, h)
  }

  lemma {:induction false} EnqueueNoDuplicates(q: Queue, hashes: seq<Hash>)
    requires NoDuplicates(q.pending)
    ensures NoDuplicates(Enqueue(q, hashes).pending)
    decreases |hashes|
  {
    if hashes != [] {
      if hashes[0] == "" || hashes[0] in q.pending || hashes[0] in q.inflight {
        EnqueueNoDuplicates(q, hashes[1..]);
      } else {
        EnqueueNoDuplicates(q.(pending := q.pending + [hashes[0]]), hashes[1..]);
      }
    }
  }

  lemma EnqueueDistinctIff(max: nat, s: Sys, e: Event)
    requires e.Enqueued? && Distinct(s)
    ensures Distinct(Step(max, s, e)) <==> !NamesHeld(s, e)
  {
    var s' := Step(max, s, e);
    EnqueueKeepsInflight(s.q, e.hashes);
    EnqueueNoDuplicates(s.q, e.hashes);
    forall h ensures h in s'.q.pending <==> h in s.q.pending || (h in e.hashes && h != "" && h !in s.q.inflight) {
      EnqueueAdds(s.q, e.hashes, h);
    }
    assert forall h :: Held(s', h) <==> Held(s, h);
    if NamesHeld(s, e) {
      var h :| h in e.hashes && h != "" && Held(s, h);
      assert h in s'.q.pending && Held(s', h);
    }
  }

  lemma PopKeepsDistinct(max: nat, s: Sys, e: Event)
    requires (e.Popped? || e.Fetched?) && Enabled(s, e) && Distinct(s)
    ensures Distinct(Step(max, s, e))
  {
    var s' := Step(max, s, e);
    if s.q.pending != [] {
      var p0 := s.q.pending[0];
      assert p0 in s.q.pending;
      assert forall w :: 0 <= w < |s.workers| && s.workers[w].Holding? ==> s.workers[w].hash != p0 by {
        forall w | 0 <= w < |s.workers| && s.workers[w].Holding? ensures s.workers[w].hash != p0 {
          assert Held(s, s.workers[w].hash);
        }
      }
      forall h | h in s'.q.pending ensures h in s.q.pending && h != p0 {
        var i :| 0 <= i < |s.q.pending[1..]| && s.q.pending[1..][i] == h;
        assert s.q.pending[i + 1] == h;
      }
      forall h | Held(s', h) ensures Held(s, h) || (e.Popped? && h == p0) {
        var v :| 0 <= v < |s'.workers| && s'.workers[v] == Holding(h);
        if v != e.w { assert s.workers[v] == Holding(h); }
      }
    } else {
      forall h | Held(s', h) ensures Held(s, h) {
        var v :| 0 <= v < |s'.workers| && s'.workers[v] == Holding(h);
        assert s.workers[v] == Holding(h);
      }
    }
  }

  lemma AddKeepsDistinct(max: nat, s: Sys, e: Event)
    requires e.Added? && Enabled(s, e) && Distinct(s)
    ensures Distinct(Step(max, s, e))
  {
    var s', h0 := Step(max, s, e), s.workers[e.w].hash;
    assert Held(s, h0);
    forall h | Held(s', h) ensures Held(s, h) && h != h0 {
      var v :| 0 <= v < |s'.workers| && s'.workers[v] == Holding(h);
      assert s.workers[v] == Holding(h);
    }
    forall w | 0 <= w < |s'.workers| && s'.workers[w].Holding? ensures s'.workers[w].hash !in s'.q.inflight {
      assert Held(s', s'.workers[w].hash);
    }
  }

  lemma RequeueKeepsDistinct(max: nat, s: Sys, e: Event)
    requires e.Requeued? && Enabled(s, e) && Distinct(s)
    ensures Distinct(Step(max, s, e))
  {
    var s' := Step(max, s, e);
    assert forall h :: Held(s', h) <==> Held(s, h);
    assert forall h :: h in s.q.inflight ==> !Held(s, h);
    var p := s'.q.pending;
    forall i, j | 0 <= i < j < |p| ensures p[i] != p[j] {
      if i < |e.req| <= j { assert p[i] in e.req && p[j] == s.q.pending[j - |e.req|] && p[j] in s.q.pending; }
    }
  }

  lemma QuietKeepsDistinct(max: nat, s: Sys, e: Event)
    requires (e.Checked? || e.Cleared?) && Enabled(s, e) && Distinct(s)
    ensures Distinct(Step(max, s, e))
  {
    var s' := Step(max, s, e);
    forall h | Held(s', h) ensures Held(s, h) {
      var v :| 0 <= v < |s'.workers| && s'.workers[v] == Holding(h);
      assert s.workers[v] == Holding(h);
    }
  }

  /** From a state where every hash is in one place only, exactly one kind of step breaks that:
      announcing a hash that a worker has popped and not yet added. */
  lemma DistinctIff(max: nat, s: Sys, e: Event)
    requires Enabled(s, e) && Distinct(s)
    ensures Distinct(Step(max, s, e)) <==> !NamesHeld(s, e)
  {
    match e
    case Enqueued(_) => EnqueueDistinctIff(max, s, e);
    case Checked(_) => QuietKeepsDistinct(max, s, e);
    case Popped(_) => PopKeepsDistinct(max, s, e);
    case Added(_, _) => AddKeepsDistinct(max, s, e);
    case Fetched(_, _) => PopKeepsDistinct(max, s, e);
    case Cleared(_) => QuietKeepsDistinct(max, s, e);
    case Requeued(_) => RequeueKeepsDistinct(max, s, e);
  }

  lemma OnlyPopTakes(max: nat, s: Sys, e: Event, h: Hash)
    requires Enabled(s, e) && !e.Popped? && Held(Step(max, s, e), h)
    ensures Held(s, h)
  {
    var s' := Step(max, s, e);
    var v :| 0 <= v < |s'.workers| && s'.workers[v] == Holding(h);
    assert s.workers[v] == Holding(h);
  }

  /** If pop and add are one step, no hash is ever queued twice or queued while in flight. */
  lemma {:induction false} AtomicFetchStaysDistinct(max: nat, s: Sys, events: seq<Event>)
    requires AllEnabled(max, s, events) && Distinct(s) && forall h :: !Held(s, h)
    requires forall i :: 0 <= i < |events| ==> !events[i].Popped? && !events[i].Added?
    ensures Distinct(Run(max, s, events))
    decreases |events|
  {
    if events != [] {
      var e := events[0];
      var s' := Step(max, s, e);
      DistinctIff(max, s, e);
      forall h ensures !Held(s', h) {
        if Held(s', h) { OnlyPopTakes(max, s, e, h); }
      }
      AtomicFetchStaysDistinct(max, s', events[1..]);
    }
  }

  // ----- reachable states -----

  ghost predicate Reaches(max: nat, s: Sys, t: Sys) {
    exists events :: AllEnabled(max, s, events) && Run(max, s, events) == t
  }

  lemma ReachSelf(max: nat, s: Sys)
    ensures Reaches(max, s, s)
  {
    assert AllEnabled(max, s, []) && Run(max, s, []) == s;
  }

  lemma ReachStep(max: nat, s: Sys, e: Event, next: Sys, t: Sys)
    requires Enabled(s, e) && Step(max, s, e) == next && Reaches(max, next, t)
    ensures Reaches(max, s, t)
  {
    var events :| AllEnabled(max, next, events) && Run(max, next, events) == t;
    var all := [e] + events;
    assert all[0] == e && all[1..] == events;
    assert AllEnabled(max, s, all) && Run(max, s, all) == t;
  }

  /** As three steps they are not enough: one worker, one announcement repeated in between, and
      the hash is queued again while in flight. */
  lemma SplitFetchDuplicates(h: Hash)
    requires h != ""
    ensures exists t :: Reaches(1, Start(1), t) && h in t.q.pending && h in t.q.inflight
  {
    var none: map<Hash, int> := map[];
    var empty, one := Queue([], none), Queue([h], none);
    assert [h][1..] == [];
    assert Enqueue(empty, [h]) == Enqueue(one, [h][1..]) == one;
    var s1, s2 := Sys(one, [Idle], {h}), Sys(one, [Armed], {h});
    var s3, s4 := Sys(empty, [Holding(h)], {h}), Sys(one, [Holding(h)], {h});
    var s5 := Sys(Queue([h], map[h := 0]), [Idle], {h});
    ReachSelf(1, s5);
    ReachStep(1, s4, Added(0, 0), s5, s5);
    ReachStep(1, s3, Enqueued([h]), s4, s5);
    ReachStep(1, s2, Popped(0), s3, s5);
    ReachStep(1, s1, Checked(0), s2, s5);
    ReachStep(1, Start(1), Enqueued([h]), s1, s5);
  }

  // ----- the bound is reached -----

  // Distinct hashes to ask for.
  function Name(i: nat): Hash { seq(i + 1, _ => 'h') }

  function Names(from: nat, to: nat): seq<Hash>
    requires from <= to
  {
    seq(to - from, i requires 0 <= i < to - from => Name(from + i))
  }

  ghost function Fetching(k: nat): map<Hash, int> { map h | h in Names(0, k) :: 0 }

  lemma NameIndex(i: nat, k: nat)
    ensures Name(i) in Names(0, k) <==> i < k
    ensures Name(i) != ""
  {
    if i < k { assert Names(0, k)[i] == Name(i); }
    forall j | 0 <= j < k && j != i ensures Names(0, k)[j] != Name(i) { assert |Name(j)| == j + 1; }
    assert |Name(i)| == i + 1;
  }

  lemma FetchingGrow(k: nat)
    ensures Fetching(k)[Name(k) := 0] == Fetching(k + 1)
  {
    NamesGrow(k);
  }

  lemma {:induction false} FetchingSize(k: nat)
    ensures |Fetching(k)| == k
  {
    if k > 0 {
      FetchingSize(k - 1);
      NameIndex(k - 1, k - 1);
      FetchingGrow(k - 1);
      assert Fetching(k).Keys == Fetching(k - 1).Keys + {Name(k - 1)};
    }
  }

  lemma NamesGrow(k: nat)
    ensures Names(0, k + 1) == Names(0, k) + [Name(k)]
  {
  }

  lemma {:induction false} EnqueueNames(lo: nat, hi: nat)
    requires lo <= hi
    ensures Enqueue(Queue(Names(0, lo), map[]), Names(lo, hi)) == Queue(Names(0, hi), map[])
    decreases hi - lo
  {
    if lo < hi {
      var rest := Names(lo, hi);
      assert rest[0] == Name(lo) && rest[1..] == Names(lo + 1, hi);
      NameIndex(lo, lo);
      NamesGrow(lo);
      EnqueueNames(lo + 1, hi);
    } else {
      assert Names(lo, hi) == [];
    }
  }

  // The first k of n names are in flight, the rest are queued; the first `idle` workers are
  // idle and the others armed.
  ghost function At(n: nat, k: nat, workers: nat, idle: nat): Sys
    requires k <= n
  {
    Sys(Queue(Names(k, n), Fetching(k)), seq(workers, i => if i < idle then Idle else Armed), set h | h in Names(0, n))
  }

  lemma TakeOne(max: nat, n: nat, k: nat, workers: nat, idle: nat, t: Sys)
    requires k < n && idle < workers && Reaches(max, At(n, k + 1, workers, idle + 1), t)
    ensures Reaches(max, At(n, k, workers, idle), t)
  {
    var s, s2 := At(n, k, workers, idle), At(n, k + 1, workers, idle + 1);
    var held := Sys(Queue(Names(k + 1, n), Fetching(k)), s.workers[idle := Holding(Name(k))], s.wanted);
    assert s.q.pending[0] == Name(k) && s.q.pending[1..] == Names(k + 1, n);
    FetchingGrow(k);
    assert Step(max, held, Added(idle, 0)) == s2;
    ReachStep(max, held, Added(idle, 0), s2, t);
    ReachStep(max, s, Popped(idle), held, t);
  }

  lemma ArmOne(max: nat, n: nat, k: nat, workers: nat, idle: nat, t: Sys)
    requires k <= n && k < max && idle < workers && Reaches(max, At(n, k, workers, idle), t)
    ensures Reaches(max, At(n, k, workers, idle + 1), t)
  {
    FetchingSize(k);
    assert Step(max, At(n, k, workers, idle + 1), Checked(idle)) == At(n, k, workers, idle);
    ReachStep(max, At(n, k, workers, idle + 1), Checked(idle), At(n, k, workers, idle), t);
  }

  lemma {:induction false} ArmAll(max: nat, n: nat, k: nat, workers: nat, idle: nat, t: Sys)
    requires k <= n && k < max && idle <= workers && Reaches(max, At(n, k, workers, 0), t)
    ensures Reaches(max, At(n, k, workers, idle), t)
    decreases idle
  {
    if idle > 0 {
      ArmAll(max, n, k, workers, idle - 1, t);
      ArmOne(max, n, k, workers, idle - 1, t);
    }
  }

  lemma {:induction false} TakeAll(max: nat, n: nat, k: nat, last: nat, workers: nat, idle: nat, t: Sys)
    requires idle <= workers && k + (workers - idle) == last <= n && Reaches(max, At(n, last, workers, workers), t)
    ensures Reaches(max, At(n, k, workers, idle), t)
    decreases workers - idle
  {
    if idle < workers {
      TakeAll(max, n, k + 1, last, workers, idle + 1, t);
      TakeOne(max, n, k, workers, idle, t);
    }
  }

  // With all workers idle, fill the flight one block at a time, staying below the maximum.
  lemma {:induction false} FillUp(max: nat, n: nat, k: nat, last: nat, workers: nat, t: Sys)
    requires workers >= 1 && k <= last < max && last <= n && Reaches(max, At(n, last, workers, workers), t)
    ensures Reaches(max, At(n, k, workers, workers), t)
    decreases last - k
  {
    if k < last {
      FillUp(max, n, k + 1, last, workers, t);
      TakeOne(max, n, k, workers, workers - 1, t);
      ArmOne(max, n, k, workers, workers - 1, t);
    }
  }

  // One below the maximum all workers pass the check together, and then all go on.
  lemma Overfill(max: nat, workers: nat, k: nat, n: nat, t: Sys)
    requires k < max && n == k + workers && Reaches(max, At(n, n, workers, workers), t)
    ensures Reaches(max, At(n, k, workers, workers), t)
  {
    TakeAll(max, n, k, n, workers, 0, t);
    ArmAll(max, n, k, workers, workers, t);
  }

  lemma RunToBound(max: nat, workers: nat, k: nat, n: nat)
    requires max == k + 1 && workers >= 1 && n == k + workers
    ensures Reaches(max, Start(workers), At(n, n, workers, workers))
  {
    var t := At(n, n, workers, workers);
    ReachSelf(max, t);
    Overfill(max, workers, k, n, t);
    FillUp(max, n, 0, k, workers, t);
    AskForAll(max, n, workers);
    ReachStep(max, Start(workers), Enqueued(Names(0, n)), At(n, 0, workers, workers), t);
  }

  /** The bound cannot be lowered: for every maximum and every number of workers some
      interleaving brings exactly that many blocks in flight. */
  lemma InFlightBoundReached(max: nat, workers: nat)
    requires max >= 1 && workers >= 1
    ensures exists t :: Reaches(max, Start(workers), t) && |t.q.inflight| == max + workers - 1
  {
    var n := max + workers - 1;
    RunToBound(max, workers, max - 1, n);
    FetchingSize(n);
    assert |At(n, n, workers, workers).q.inflight| == n;
  }

  lemma AskForAll(max: nat, n: nat, workers: nat)
    ensures Step(max, Start(workers), Enqueued(Names(0, n))) == At(n, 0, workers, workers)
  {
    EnqueueNames(0, n);
    assert Names(0, 0) == [] && Fetching(0) == map[];
    forall h | h in Names(0, n) ensures h != "" {
      var i :| 0 <= i < n && Names(0, n)[i] == h;
      assert |Name(i)| == i + 1;
    }
    assert Start(workers).workers == At(n, 0, workers, workers).workers;
  }

  /** Hashes are queued one after the other behind what is there: a new one at the end, and one that is
      empty, queued or in flight not at all. */
  lemma {:induction false} EnqueueInTurn(q: Queue, a: seq<Hash>, b: seq<Hash>, h: Hash)
    ensures Enqueue(q, a + b) == Enqueue(Enqueue(q, a), b)
    ensures Enqueue(q, [h]) ==
            if h == "" || h in q.pending || h in q.inflight then q else Queue(q.pending + [h], q.inflight)
    decreases |a|
  {
    assert [h][1..] == [];
    if a == [] {
      assert a + b == b;
    } else {
      assert (a + b)[1..] == a[1..] + b;
      EnqueueInTurn(q, a[1..], b, h);
      EnqueueInTurn(q.(pending := q.pending + [a[0]]), a[1..], b, h);
    }
  }
}

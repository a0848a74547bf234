// The golden model's kernel loop (models/systemc/src/top/top.cpp:118-187): each
// round runs one ready warp per unit, then, when no warp is ready, resumes all
// stalled warps if they are all the warps of the kernel.

module GoldenLoop {
  import opened Slots
  import opened Launch
  import opened Safety
  import opened Protocol
  import opened Liveness
  import opened Sums

  /** A warp in the barrier queue and how often it has run. */
  datatype StalledWarp = StalledWarp(warp: nat, k: nat)

  datatype Loop = Loop(ready: seq<seq<nat>>, queue: seq<StalledWarp>)

  /** Whether the k-th run of warp w ends at a barrier. */
  type Behaviour = (nat, nat) -> bool

  function Queued(stalls: Behaviour, w: nat, k: nat): seq<StalledWarp> {
    if stalls(w, k) then [StalledWarp(w, k + 1)] else []
  }

  function RunFirst(stalls: Behaviour, l: Loop, c: nat): Loop
    requires c < |l.ready|
  {
    if l.ready[c] == [] then l
    else Loop(l.ready[c := l.ready[c][1..]], l.queue + Queued(stalls, l.ready[c][0], 0))
  }

  /** Units below c have had their turn. */
  function FanOut(stalls: Behaviour, l: Loop, c: nat): (after: Loop)
    requires c <= |l.ready|
    ensures |after.ready| == |l.ready|
  {
    if c == 0 then l else RunFirst(stalls, FanOut(stalls, l, c - 1), c - 1)
  }

  function Resumed(stalls: Behaviour, queue: seq<StalledWarp>): seq<StalledWarp> {
    if queue == [] then []
    else Resumed(stalls, queue[..|queue| - 1]) + Queued(stalls, queue[|queue| - 1].warp, queue[|queue| - 1].k)
  }

  /** The scheduler's `isComplete`. */
  predicate NoneReady(l: Loop) { forall c :: 0 <= c < |l.ready| ==> l.ready[c] == [] }

  function BarrierCheck(stalls: Behaviour, total: nat, l: Loop): Loop {
    if NoneReady(l) && l.queue != [] && |l.queue| == total then l.(queue := Resumed(stalls, l.queue)) else l
  }

  function Iteration(stalls: Behaviour, total: nat, l: Loop): Loop {
    BarrierCheck(stalls, total, FanOut(stalls, l, |l.ready|))
  }

  predicate Exit(l: Loop) { NoneReady(l) && l.queue == [] }

  function Iterations(stalls: Behaviour, total: nat, l: Loop, i: nat): Loop
    decreases i
  {
    if i == 0 then l else Iterations(stalls, total, Iteration(stalls, total, l), i - 1)
  }

  /** Every warp of the kernel is in exactly one ready queue, once. */
  predicate Member(ready: seq<seq<nat>>, w: nat) {
    exists c, i :: 0 <= c < |ready| && 0 <= i < |ready[c]| && ready[c][i] == w
  }

  predicate NoRepeats(ready: seq<seq<nat>>) {
    forall c, i, d, j :: 0 <= c < |ready| && 0 <= i < |ready[c]| && 0 <= d < |ready| && 0 <= j < |ready[d]| && ready[c][i] == ready[d][j]
      ==> c == d && i == j
  }

  ghost predicate Submitted(total: nat, l: Loop) {
    l.queue == [] && NoRepeats(l.ready) && forall w: nat :: Member(l.ready, w) <==> w < total
  }

  // ----- When the loop ends -----

  predicate Before(stalls: Behaviour, w: nat, k: nat) { forall i :: 0 <= i < k ==> stalls(w, i) }

  predicate AllBefore(stalls: Behaviour, total: nat, k: nat) {
    forall w :: 0 <= w < total ==> Before(stalls, w, k)
  }

  predicate Alike(stalls: Behaviour, total: nat, b: nat) {
    forall w :: 0 <= w < total ==> Before(stalls, w, b) && !stalls(w, b)
  }

  function Warps(queue: seq<StalledWarp>): set<nat> {
    if queue == [] then {} else Warps(queue[..|queue| - 1]) + {queue[|queue| - 1].warp}
  }

  predicate Distinct(queue: seq<StalledWarp>) {
    queue == [] || (queue[|queue| - 1].warp !in Warps(queue[..|queue| - 1]) && Distinct(queue[..|queue| - 1]))
  }

  lemma Append(queue: seq<StalledWarp>, sw: StalledWarp)
    ensures Warps(queue + [sw]) == Warps(queue) + {sw.warp}
    ensures Distinct(queue + [sw]) <==> Distinct(queue) && sw.warp !in Warps(queue)
  {
    assert (queue + [sw])[..|queue|] == queue;
  }

  lemma {:induction false} DistinctCount(queue: seq<StalledWarp>)
    requires Distinct(queue)
    ensures |Warps(queue)| == |queue|
  {
    if queue != [] {
      DistinctCount(queue[..|queue| - 1]);
    }
  }

  function Below(n: nat): (s: set<nat>)
    ensures |s| == n && forall w: nat :: w in s <==> w < n
  {
    if n == 0 then {} else Below(n - 1) + {n - 1}
  }

  lemma SubsetCount(a: set<nat>, b: set<nat>)
    requires a <= b
    ensures |a| == |b| <==> a == b
  {
    assert b == a + (b - a);
  }

  /** The queue holds all warps that have stalled g times, each once. */
  ghost predicate AtLevel(stalls: Behaviour, total: nat, g: nat, queue: seq<StalledWarp>) {
    && Distinct(queue)
    && (forall i :: 0 <= i < |queue| ==> queue[i].k == g)
    && forall w: nat :: w in Warps(queue) <==> w < total && Before(stalls, w, g)
  }

  /** While warps are ready: the queue holds those that ran and stalled. */
  ghost predicate Filling(stalls: Behaviour, total: nat, l: Loop) {
    && NoRepeats(l.ready) && Distinct(l.queue)
    && (forall i :: 0 <= i < |l.queue| ==> l.queue[i].k == 1)
    && (forall w: nat :: Member(l.ready, w) ==> w < total)
    && forall w: nat :: w in Warps(l.queue) <==> w < total && !Member(l.ready, w) && stalls(w, 0)
  }

  ghost predicate Phase(stalls: Behaviour, total: nat, g: nat, l: Loop) {
    if g == 1 then Filling(stalls, total, l)
    else g > 1 && NoneReady(l) && AtLevel(stalls, total, g, l.queue) && AllBefore(stalls, total, g - 1)
  }

  lemma PhaseLevel(stalls: Behaviour, total: nat, g: nat, l: Loop)
    requires Phase(stalls, total, g, l) && NoneReady(l)
    ensures g > 0 && AtLevel(stalls, total, g, l.queue) && AllBefore(stalls, total, g - 1)
  {
    if g == 1 {
      assert forall w: nat :: !Member(l.ready, w);
    }
  }

  lemma PopMember(ready: seq<seq<nat>>, c: nat, w: nat)
    requires NoRepeats(ready) && c < |ready| && ready[c] != []
    ensures Member(ready[c := ready[c][1..]], w) <==> Member(ready, w) && w != ready[c][0]
  {
    var after := ready[c := ready[c][1..]];
    if Member(after, w) {
      var d, i :| 0 <= d < |after| && 0 <= i < |after[d]| && after[d][i] == w;
      var at := if d == c then i + 1 else i;
      assert ready[d][at] == w;
    }
    if Member(ready, w) && w != ready[c][0] {
      var d, i :| 0 <= d < |ready| && 0 <= i < |ready[d]| && ready[d][i] == w;
      var at := if d == c then i - 1 else i;
      assert after[d][at] == w;
    }
  }

  lemma PopNoRepeats(ready: seq<seq<nat>>, c: nat)
    requires NoRepeats(ready) && c < |ready| && ready[c] != []
    ensures NoRepeats(ready[c := ready[c][1..]])
  {
    var after := ready[c := ready[c][1..]];
    forall d, i, e, j | 0 <= d < |after| && 0 <= i < |after[d]| && 0 <= e < |after| && 0 <= j < |after[e]| && after[d][i] == after[e][j]
      ensures d == e && i == j
    {
      var x, y := if d == c then i + 1 else i, if e == c then j + 1 else j;
      assert ready[d][x] == ready[e][y];
    }
  }

  lemma RunFirstFills(stalls: Behaviour, total: nat, l: Loop, c: nat)
    requires Filling(stalls, total, l) && c < |l.ready|
    ensures Filling(stalls, total, RunFirst(stalls, l, c))
  {
    hide NoRepeats, Member, Warps, Distinct;
    if l.ready[c] != [] {
      var w0, t := l.ready[c][0], RunFirst(stalls, l, c);
      PopNoRepeats(l.ready, c);
      forall w: nat ensures Member(t.ready, w) <==> Member(l.ready, w) && w != w0 {
        PopMember(l.ready, c, w);
      }
      HeadMember(l.ready, c);
      Append(l.queue, StalledWarp(w0, 1));
      if !stalls(w0, 0) {
        assert t.queue == l.queue;
      }
    }
  }

  lemma HeadMember(ready: seq<seq<nat>>, c: nat)
    requires c < |ready| && ready[c] != []
    ensures Member(ready, ready[c][0])
  {
  }

  lemma {:induction false} FanOutFills(stalls: Behaviour, total: nat, l: Loop, c: nat)
    requires Filling(stalls, total, l) && c <= |l.ready|
    ensures Filling(stalls, total, FanOut(stalls, l, c))
  {
    hide Filling;
    if c > 0 {
      FanOutFills(stalls, total, l, c - 1);
      RunFirstFills(stalls, total, FanOut(stalls, l, c - 1), c - 1);
    }
  }

  lemma {:induction false} FanOutIdle(stalls: Behaviour, l: Loop, c: nat)
    requires NoneReady(l) && c <= |l.ready|
    ensures FanOut(stalls, l, c) == l
  {
    if c > 0 {
      FanOutIdle(stalls, l, c - 1);
    }
  }

  /** `next` holds the warps of `queue` that stall again at their g-th run. */
  ghost predicate Survivors(stalls: Behaviour, g: nat, queue: seq<StalledWarp>, next: seq<StalledWarp>) {
    && Distinct(next) && (forall i :: 0 <= i < |next| ==> next[i].k == g + 1)
    && forall w: nat :: w in Warps(next) <==> w in Warps(queue) && stalls(w, g)
  }

  lemma SurvivorStep(stalls: Behaviour, g: nat, queue: seq<StalledWarp>, next: seq<StalledWarp>, sw: StalledWarp)
    requires Survivors(stalls, g, queue, next) && sw.k == g && sw.warp !in Warps(queue)
    ensures Survivors(stalls, g, queue + [sw], next + Queued(stalls, sw.warp, sw.k))
  {
    hide Warps, Distinct;
    Append(queue, sw);
    Append(next, StalledWarp(sw.warp, g + 1));
    assert !stalls(sw.warp, g) ==> next + Queued(stalls, sw.warp, sw.k) == next;
  }

  lemma {:induction false} ResumedWarps(stalls: Behaviour, g: nat, queue: seq<StalledWarp>)
    requires Distinct(queue) && forall i :: 0 <= i < |queue| ==> queue[i].k == g
    ensures Survivors(stalls, g, queue, Resumed(stalls, queue))
  {
    if queue != [] {
      hide Warps, Survivors, Queued;
      var init, sw := queue[..|queue| - 1], queue[|queue| - 1];
      assert queue == init + [sw];
      Append(init, sw);
      ResumedWarps(stalls, g, init);
      SurvivorStep(stalls, g, init, Resumed(stalls, init), sw);
    }
  }

  /** The barrier opens exactly when every warp of the kernel has stalled. */
  lemma BarrierOpens(stalls: Behaviour, total: nat, g: nat, queue: seq<StalledWarp>)
    requires AtLevel(stalls, total, g, queue)
    ensures |queue| == total <==> AllBefore(stalls, total, g)
  {
    DistinctCount(queue);
    assert Warps(queue) <= Below(total);
    SubsetCount(Warps(queue), Below(total));
    if |queue| == total {
      forall w: nat | w < total ensures Before(stalls, w, g) {
        assert w in Warps(queue);
      }
    }
  }

  ghost predicate Opens(stalls: Behaviour, total: nat, g: nat, l: Loop) {
    NoneReady(l) && l.queue != [] && AllBefore(stalls, total, g)
  }

  lemma CheckPhase(stalls: Behaviour, total: nat, g: nat, l: Loop)
    requires Phase(stalls, total, g, l)
    ensures var t := BarrierCheck(stalls, total, l);
            if Opens(stalls, total, g, l)
            then t.ready == l.ready && Phase(stalls, total, g + 1, t) else t == l
  {
    hide Before, Filling, Warps, Distinct, Resumed;
    if NoneReady(l) {
      PhaseLevel(stalls, total, g, l);
      BarrierOpens(stalls, total, g, l.queue);
      if l.queue != [] && |l.queue| == total {
        ResumedWarps(stalls, g, l.queue);
        forall w: nat | w < total ensures Before(stalls, w, g + 1) <==> Before(stalls, w, g) && stalls(w, g) {
          OneMore(stalls, w, g);
        }
      }
    }
  }

  lemma OneMore(stalls: Behaviour, w: nat, g: nat)
    ensures Before(stalls, w, g + 1) <==> Before(stalls, w, g) && stalls(w, g)
  {
  }

  lemma FanOutPhase(stalls: Behaviour, total: nat, g: nat, l: Loop)
    requires Phase(stalls, total, g, l)
    ensures Phase(stalls, total, g, FanOut(stalls, l, |l.ready|))
  {
    hide Filling, AtLevel, Before, NoneReady;
    if g == 1 {
      FanOutFills(stalls, total, l, |l.ready|);
    } else {
      FanOutIdle(stalls, l, |l.ready|);
    }
  }

  lemma {:induction false} EndMeansAlike(stalls: Behaviour, total: nat, g: nat, l: Loop, i: nat)
    requires Phase(stalls, total, g, l) && Exit(Iterations(stalls, total, l, i))
    ensures exists b: nat :: Alike(stalls, total, b)
    decreases i
  {
    hide Phase, FanOut, BarrierCheck, Opens;
    if i == 0 {
      ExitMeansAlike(stalls, total, g, l);
    } else {
      var m := FanOut(stalls, l, |l.ready|);
      FanOutPhase(stalls, total, g, l);
      CheckPhase(stalls, total, g, m);
      var t := BarrierCheck(stalls, total, m);
      EndMeansAlike(stalls, total, if Opens(stalls, total, g, m) then g + 1 else g, t, i - 1);
    }
  }

  lemma ExitMeansAlike(stalls: Behaviour, total: nat, g: nat, l: Loop)
    requires Phase(stalls, total, g, l) && Exit(l)
    ensures g > 0 && Alike(stalls, total, g - 1)
  {
    PhaseLevel(stalls, total, g, l);
    var k := g - 1;
    forall w: nat | w < total ensures Before(stalls, w, k) && !stalls(w, k) {
      OneMore(stalls, w, k);
      assert w !in Warps(l.queue);
    }
  }

  // ----- and that it does -----

  function Length(q: seq<nat>): int { |q| }

  function Left(l: Loop): int { Total(l.ready, Length) }

  lemma {:induction false} FanOutTakes(stalls: Behaviour, l: Loop, c: nat)
    requires c <= |l.ready|
    ensures Left(FanOut(stalls, l, c)) <= Left(l)
    ensures forall d :: 0 <= d < |l.ready| ==> FanOut(stalls, l, c).ready[d] == if d < c && l.ready[d] != [] then l.ready[d][1..] else l.ready[d]
    ensures (exists d :: 0 <= d < c && l.ready[d] != []) ==> Left(FanOut(stalls, l, c)) < Left(l)
  {
    if c > 0 {
      FanOutTakes(stalls, l, c - 1);
      var m := FanOut(stalls, l, c - 1);
      if m.ready[c - 1] != [] {
        TotalUpdate(m.ready, c - 1, m.ready[c - 1][1..], Length);
      }
    }
  }

  lemma LeftNatural(l: Loop)
    ensures Left(l) >= 0
  {
    NotNegative(l.ready, Length);
  }

  /** With every warp alike, a barrier that someone waits at opens. */
  lemma NextLevel(stalls: Behaviour, total: nat, g: nat, b: nat, l: Loop)
    requires Phase(stalls, total, g, l) && Alike(stalls, total, b) && 0 < total
    ensures Opens(stalls, total, g, l) ==> g <= b
    ensures NoneReady(l) && l.queue != [] ==> Opens(stalls, total, g, l)
  {
    hide Filling, Warps, Distinct;
    assert Before(stalls, 0, b) && !stalls(0, b);
    if NoneReady(l) && l.queue != [] {
      PhaseLevel(stalls, total, g, l);
      var w := l.queue[|l.queue| - 1].warp;
      LastWarp(l.queue);
      assert w < total && Before(stalls, w, g) && !stalls(w, b);
      forall v: nat | v < total ensures Before(stalls, v, g) {
        assert Before(stalls, v, b);
      }
    }
  }

  lemma LastWarp(queue: seq<StalledWarp>)
    requires queue != []
    ensures queue[|queue| - 1].warp in Warps(queue)
  {
  }

  lemma {:induction false} AlikeMeansEnd(stalls: Behaviour, total: nat, g: nat, b: nat, l: Loop)
    requires Phase(stalls, total, g, l) && Alike(stalls, total, b) && 0 < total && g <= b + 1
    ensures exists i: nat :: Exit(Iterations(stalls, total, l, i))
    decreases Left(l) + b + 1 - g
  {
    hide Phase, FanOut, BarrierCheck, Opens;
    LeftNatural(l);
    if Exit(l) {
      assert Exit(Iterations(stalls, total, l, 0));
    } else {
      var m := FanOut(stalls, l, |l.ready|);
      FanOutPhase(stalls, total, g, l);
      FanOutTakes(stalls, l, |l.ready|);
      CheckPhase(stalls, total, g, m);
      var t := BarrierCheck(stalls, total, m);
      if NoneReady(l) {
        FanOutIdle(stalls, l, |l.ready|);
      }
      NextLevel(stalls, total, g, b, m);
      AlikeMeansEnd(stalls, total, if Opens(stalls, total, g, m) then g + 1 else g, b, t);
      var i: nat :| Exit(Iterations(stalls, total, t, i));
      assert Iterations(stalls, total, l, i + 1) == Iterations(stalls, total, t, i);
    }
  }

  /** The golden loop ends exactly for kernels whose warps all meet equally many
      barriers; an empty kernel is one. */
  lemma GoldenEndsIff(stalls: Behaviour, total: nat, l: Loop)
    requires Submitted(total, l)
    ensures (exists i: nat :: Exit(Iterations(stalls, total, l, i))) <==> exists b: nat :: Alike(stalls, total, b)
  {
    hide Iterations, Alike, NoRepeats;
    assert Filling(stalls, total, l);
    if i: nat :| Exit(Iterations(stalls, total, l, i)) {
      EndMeansAlike(stalls, total, 1, l, i);
    }
    if b: nat :| Alike(stalls, total, b) {
      if total == 0 {
        EmptyKernel(l);
        assert Exit(Iterations(stalls, total, l, 0)) by { FirstIteration(stalls, total, l); }
      } else {
        AlikeMeansEnd(stalls, total, 1, b, l);
      }
    }
  }

  lemma FirstIteration(stalls: Behaviour, total: nat, l: Loop)
    ensures Iterations(stalls, total, l, 0) == l
  {
  }

  lemma EmptyKernel(l: Loop)
    requires Submitted(0, l)
    ensures Exit(l)
  {
    forall c | 0 <= c < |l.ready| ensures l.ready[c] == [] {
      if l.ready[c] != [] {
        HeadMember(l.ready, c);
      }
    }
  }

  function Behaves(cfg: Config): Behaviour { (w: nat, k: nat) => StallsAt(cfg, w, k) }

  /** For kernels that are not empty and fit the hardware, the golden loop ends if
      and only if the hardware's launch can complete. */
  lemma SameCompletion(cfg: Config, l: Loop)
    requires cfg.Valid() && 0 < cfg.total <= cfg.n * cfg.m && Submitted(cfg.total, l)
    ensures var stalls := Behaves(cfg);
            (exists i: nat :: Exit(Iterations(stalls, cfg.total, l, i)))
            <==> exists s :: Reachable(cfg, s) && s.barrier.completed
  {
    hide Iterations, Reachable, StallsAt, Submitted, Alike, Uniform;
    var stalls := Behaves(cfg);
    GoldenEndsIff(stalls, cfg.total, l);
    CompletesIff(cfg);
    forall b: nat ensures Alike(stalls, cfg.total, b) <==> Uniform(cfg, b) {
      SameBarriers(cfg, stalls, b);
    }
  }

  lemma SameBarriers(cfg: Config, stalls: Behaviour, b: nat)
    requires forall w: nat, k: nat :: stalls(w, k) == StallsAt(cfg, w, k)
    ensures Alike(stalls, cfg.total, b) <==> Uniform(cfg, b)
  {
    hide StallsAt;
    forall w: nat, k: nat ensures Before(stalls, w, k) <==> StallsBefore(cfg, w, k) {
    }
  }

  // ----- The imperative loop body -----

  class SimulationLoop {
    const stalls: Behaviour
    const total: nat
    var ready: seq<seq<nat>>
    var barrierQueue: seq<StalledWarp>

    constructor (stalls: Behaviour, total: nat, ready: seq<seq<nat>>)
      ensures this.stalls == stalls && this.total == total && Value() == Loop(ready, [])
    {
      this.stalls, this.total, this.ready, barrierQueue := stalls, total, ready, [];
    }

    ghost function Value(): Loop
      reads this
    {
      Loop(ready, barrierQueue)
    }

    method FanOutAll()
      modifies this
      ensures Value() == FanOut(stalls, old(Value()), |old(ready)|)
    {
      ghost var before := Value();
      for c := 0 to |ready|
        invariant |ready| == |before.ready| && Value() == FanOut(stalls, before, c)
      {
        if ready[c] != [] {
          var w := ready[c][0];
          ready := ready[c := ready[c][1..]];
          if stalls(w, 0) {
            barrierQueue := barrierQueue + [StalledWarp(w, 1)];
          }
        }
        assert Value() == RunFirst(stalls, FanOut(stalls, before, c), c);
      }
    }

    method SchedulerComplete() returns (b: bool)
      ensures b == NoneReady(Value())
    {
      for c := 0 to |ready|
        invariant forall d :: 0 <= d < c ==> ready[d] == []
      {
        if ready[c] != [] {
          return false;
        }
      }
      return true;
    }

    method Iterate()
      modifies this
      ensures Value() == Iteration(stalls, total, old(Value()))
    {
      hide FanOut, NoneReady;
      FanOutAll();
      var complete := SchedulerComplete();
      if complete && barrierQueue != [] && |barrierQueue| == total {
        var next: seq<StalledWarp> := [];
        for i := 0 to |barrierQueue|
          invariant next == Resumed(stalls, barrierQueue[..i])
        {
          assert barrierQueue[..i + 1][..i] == barrierQueue[..i];
          var sw := barrierQueue[i];
          if stalls(sw.warp, sw.k) {
            next := next + [StalledWarp(sw.warp, sw.k + 1)];
          }
        }
        assert barrierQueue[..|barrierQueue|] == barrierQueue;
        barrierQueue := next;
      }
    }
  }
}

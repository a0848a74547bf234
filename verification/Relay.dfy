// The barrier when units are grouped in clusters: `clusterBarrierRelay` sits
// between the schedulers of a cluster and the arbiter, which then has one event
// and one signal stream per cluster (hls/src/scheduler/cu_cluster.h:38-63,
// barrier_arbiter.h:145-203, gpgpu_top.cpp:103-109).

module Relay {
  import opened Isa
  import opened Slots
  import opened Sums
  import opened Numbers
  import opened Protocol
  import opened Loading
  import opened Launch
  import opened Safety

  /** An event on a cluster's stream. The unit it came from is history: no process reads it. */
  datatype Arrival = Arrival(c: nat, code: Code)

  /** `flat` holds what each unit holds, its own event and signal streams included;
      `up` and `down` are the cluster streams, `hands` the signals that relays are
      handing out, and `telling` the one the arbiter is sending to the clusters. */
  datatype Clustered = Clustered(flat: System, up: seq<seq<Arrival>>, down: seq<seq<Signal>>, hands: seq<Telling>, telling: Telling)

  /** Loader, schedulers and pipelines step as before. A write to a full stream blocks a
      relay or the arbiter, so each write is a step of its own. */
  datatype Step = OWN(p: Process) | ARBITRATE | FORWARD(c: nat) | FANOUT(k: nat)

  function ClusterOf(size: nat, c: nat): nat
    requires 0 < size
  {
    c / size
  }

  predicate Grouped(cfg: Config, size: nat, s: Clustered) {
    && 0 < size && |s.up| == |s.down| == |s.hands| && |s.flat.units| == cfg.n
    && forall c :: 0 <= c < cfg.n ==> ClusterOf(size, c) < |s.up|
  }

  // ----- Relay -----

  /** A full cluster stream keeps the event where it is. */
  function Forward(cfg: Config, size: nat, c: nat, s: Clustered): Clustered
    requires 0 < size && c < |s.flat.units| && ClusterOf(size, c) < |s.up|
  {
    var u, k := s.flat.units[c], ClusterOf(size, c);
    if u.events == [] || |s.up[k]| >= cfg.m then s
    else s.(flat := s.flat.(units := s.flat.units[c := Popped(u)]), up := s.up[k := s.up[k] + [Arrival(c, u.events[0])]])
  }

  /** The relay takes a signal, or hands the one it has to the next unit of its cluster. */
  function FanOut(size: nat, depth: nat, k: nat, s: Clustered): Clustered
    requires 0 < size && k < |s.down| == |s.hands|
  {
    if s.hands[k].Nobody? then
      if s.down[k] == [] then s
      else s.(down := s.down[k := s.down[k][1..]], hands := s.hands[k := Telling(s.down[k][0], k * size)])
    else
      var sig, c := s.hands[k].sig, s.hands[k].next;
      if c >= |s.flat.units| || ClusterOf(size, c) != k then s.(hands := s.hands[k := Nobody])
      else if |s.flat.units[c].signals| >= depth then s
      else s.(flat := s.flat.(units := s.flat.units[c := Told(sig, s.flat.units[c])]), hands := s.hands[k := Telling(sig, c + 1)])
  }

  // ----- The arbiter over cluster streams -----

  function OnEvent(b: Barrier, code: Code): Barrier {
    if code == COMPLETED then b.(done := b.done + 1) else b.(stalled := b.stalled + 1)
  }

  function PollOne(s: Clustered, k: nat): Clustered
    requires k < |s.up|
  {
    if s.up[k] == [] then s
    else s.(flat := s.flat.(barrier := OnEvent(s.flat.barrier, s.up[k][0].code)), up := s.up[k := s.up[k][1..]])
  }

  function PollFrom(s: Clustered, k: nat): Clustered
    decreases |s.up| - k
  {
    if k >= |s.up| then s else PollFrom(PollOne(s, k), k + 1)
  }

  function AnnounceDone(s: Clustered): Clustered {
    var b := s.flat.barrier;
    if KernelComplete(b) then s.(flat := s.flat.(barrier := b.(busy := false, completed := true)), telling := Telling(KERNEL_DONE, 0))
    else s.(telling := Nobody)
  }

  function AnnounceRelease(s: Clustered): Clustered {
    var b := s.flat.barrier;
    if ReleaseReady(b) then
      s.(flat := s.flat.(barrier := b.(stalled := 0, releases := b.releases + 1)), telling := Telling(RELEASE, 0))
    else AnnounceDone(s)
  }

  /** From the top of a pass to its first write, or one write. */
  function Arbitrate(cfg: Config, depth: nat, s: Clustered): Clustered {
    var b := s.flat.barrier;
    if s.telling.Nobody? then
      if b.completed then s
      else if !b.busy then s.(flat := s.flat.(barrier := LaunchBarrier(cfg, b)))
      else AnnounceRelease(PollFrom(s, 0))
    else
      var sig, k := s.telling.sig, s.telling.next;
      if k >= |s.down| then (if sig.release then AnnounceDone(s) else s.(telling := Nobody))
      else if |s.down[k]| >= depth then s
      else s.(down := s.down[k := s.down[k] + [sig]], telling := Telling(sig, k + 1))
  }

  function StepPass(cfg: Config, size: nat, depth: nat, step: Step, s: Clustered): Clustered {
    match step
    case OWN(p) => if p.ARBITER? then s else s.(flat := Pass(cfg, p, s.flat))
    case ARBITRATE => Arbitrate(cfg, depth, s)
    case FORWARD(c) => if 0 < size && c < |s.flat.units| && ClusterOf(size, c) < |s.up| then Forward(cfg, size, c, s) else s
    case FANOUT(k) => if 0 < size && k < |s.down| == |s.hands| then FanOut(size, depth, k, s) else s
  }

  function Steps(cfg: Config, size: nat, depth: nat, steps: seq<Step>, s: Clustered): Clustered
    decreases |steps|
  {
    if steps == [] then s else Steps(cfg, size, depth, steps[1..], StepPass(cfg, size, depth, steps[0], s))
  }

  /** Before `start`: whole clusters of `size` units, every stream empty. */
  predicate InitialClustered(cfg: Config, size: nat, s: Clustered) {
    && InitialSystem(cfg, s.flat)
    && 0 < size && |s.up| == |s.down| == |s.hands| && cfg.n == |s.up| * size && s.telling.Nobody?
    && forall k :: 0 <= k < |s.up| ==> s.up[k] == [] && s.down[k] == [] && s.hands[k].Nobody?
  }

  // ----- What the flat arbiter would see -----

  /** Events of unit c that are already on its cluster's stream. */
  function Sent(up: seq<Arrival>, c: nat): seq<Code> {
    if up == [] then [] else (if up[0].c == c then [up[0].code] else []) + Sent(up[1..], c)
  }

  /** A unit whose streams are prolonged by what its relay carries. */
  function With(u: Unit, ahead: seq<Code>, behind: seq<Signal>): Unit {
    u.(events := ahead + u.events, signals := u.signals + behind)
  }

  /** What is still to come of a broadcast, for the stream in place c. */
  function Owed(t: Telling, c: nat): seq<Signal> { if t.Telling? && t.next <= c then [t.sig] else [] }

  /** Signals on their way to unit c: in its relay's hands, on its cluster's stream, at the arbiter. */
  function Behind(size: nat, s: Clustered, c: nat): seq<Signal>
    requires 0 < size && ClusterOf(size, c) < |s.down| == |s.hands|
  {
    var k := ClusterOf(size, c);
    Owed(s.hands[k], c) + s.down[k] + Owed(s.telling, k)
  }

  function ViewUnit(size: nat, s: Clustered, c: nat): Unit
    requires 0 < size && c < |s.flat.units| && ClusterOf(size, c) < |s.up| == |s.down| == |s.hands|
  {
    With(s.flat.units[c], Sent(s.up[ClusterOf(size, c)], c), Behind(size, s, c))
  }

  function View(cfg: Config, size: nat, s: Clustered): System
    requires Grouped(cfg, size, s)
  {
    s.flat.(units := seq(cfg.n, c requires 0 <= c < cfg.n => ViewUnit(size, s, c)))
  }

  predicate Tagged(cfg: Config, size: nat, up: seq<Arrival>, k: nat)
    requires 0 < size
  {
    forall i :: 0 <= i < |up| ==> up[i].c < cfg.n && ClusterOf(size, up[i].c) == k
  }

  /** A relay hands out within its cluster. */
  predicate HandOk(size: nat, t: Telling, k: nat) { t.Telling? ==> k * size <= t.next <= k * size + size }

  predicate SendingOk(s: Clustered) {
    s.telling.Telling? ==>
      if s.flat.barrier.completed then s.telling.sig == KERNEL_DONE else s.telling.sig == RELEASE && s.flat.barrier.busy
  }

  predicate RelayInv(cfg: Config, size: nat, s: Clustered) {
    && Grouped(cfg, size, s) && SendingOk(s)
    && (forall k :: 0 <= k < |s.up| ==> Tagged(cfg, size, s.up[k], k) && HandOk(size, s.hands[k], k))
    && Inv(cfg, View(cfg, size, s))
  }

  lemma {:induction false} SentAppend(up: seq<Arrival>, a: Arrival, c: nat)
    ensures Sent(up + [a], c) == Sent(up, c) + (if a.c == c then [a.code] else [])
  {
    if up != [] {
      assert (up + [a])[1..] == up[1..] + [a];
      SentAppend(up[1..], a, c);
    }
  }

  lemma SentNone(up: seq<Arrival>, c: nat)
    requires forall i :: 0 <= i < |up| ==> up[i].c != c
    ensures Sent(up, c) == []
  {
  }

  // ----- Relays are invisible -----

  lemma ForwardKeepsView(cfg: Config, size: nat, c: nat, s: Clustered)
    requires Grouped(cfg, size, s) && c < cfg.n
    ensures var t := Forward(cfg, size, c, s); Grouped(cfg, size, t) && View(cfg, size, t) == View(cfg, size, s)
  {
    hide Behind;
    var t, u, k := Forward(cfg, size, c, s), s.flat.units[c], ClusterOf(size, c);
    if u.events != [] && |s.up[k]| < cfg.m {
      forall c' | 0 <= c' < cfg.n ensures ViewUnit(size, t, c') == ViewUnit(size, s, c') {
        SentAppend(s.up[k], Arrival(c, u.events[0]), c');
        assert u.events == [u.events[0]] + u.events[1..];
        assert Behind(size, t, c') == Behind(size, s, c') by { SameBehind(size, s, t, c'); }
      }
    }
  }

  lemma SameBehind(size: nat, s: Clustered, t: Clustered, c: nat)
    requires 0 < size && ClusterOf(size, c) < |s.down| == |s.hands| && t.down == s.down && t.hands == s.hands && t.telling == s.telling
    ensures Behind(size, t, c) == Behind(size, s, c)
  {
  }

  /** A relay that hands a signal on changes its unit's stream and its own hand alike. */
  lemma FanOutUnit(cfg: Config, size: nat, depth: nat, k: nat, s: Clustered, c: nat)
    requires Grouped(cfg, size, s) && k < |s.down| && HandOk(size, s.hands[k], k) && c < cfg.n
    ensures var t := FanOut(size, depth, k, s); Grouped(cfg, size, t) && ViewUnit(size, t, c) == ViewUnit(size, s, c)
  {
    hide Sent;
    var t := FanOut(size, depth, k, s);
    UnitOf(size, k, c);
    if ClusterOf(size, c) == k {
      var own, rest := s.flat.units[c].signals, Owed(s.telling, k);
      if s.hands[k].Nobody? {
        if s.down[k] != [] {
          assert s.down[k] == [s.down[k][0]] + s.down[k][1..];
        }
      } else {
        var next := s.hands[k].next;
        UnitOf(size, k, next);
        if next == c {
          assert (own + [s.hands[k].sig]) + ([] + s.down[k] + rest) == own + ([s.hands[k].sig] + s.down[k] + rest);
        }
      }
    }
  }

  lemma FanOutKeepsView(cfg: Config, size: nat, depth: nat, k: nat, s: Clustered)
    requires Grouped(cfg, size, s) && k < |s.down| && HandOk(size, s.hands[k], k)
    ensures var t := FanOut(size, depth, k, s);
            Grouped(cfg, size, t) && View(cfg, size, t) == View(cfg, size, s) && HandOk(size, t.hands[k], k)
  {
    hide ViewUnit;
    var t := FanOut(size, depth, k, s);
    forall c | 0 <= c < cfg.n ensures Grouped(cfg, size, t) && ViewUnit(size, t, c) == ViewUnit(size, s, c) {
      FanOutUnit(cfg, size, depth, k, s, c);
    }
    if s.hands[k].Telling? {
      UnitOf(size, k, s.hands[k].next);
    }
  }

  lemma UnitOf(size: nat, k: nat, c: nat)
    requires 0 < size
    ensures ClusterOf(size, c) == k <==> k * size <= c < k * size + size
  {
    var q := c / size;
    Placement(size, c % size, q, c);
    if q < k {
      Multiples(q, k, size);
    } else if k < q {
      Multiples(k, q, size);
    }
  }

  // ----- The arbiter sees its flat self, a few events behind -----

  /** Polling a cluster stream pops the stream of the unit the event came from. */
  lemma PollOneView(cfg: Config, size: nat, k: nat, s: Clustered)
    requires Grouped(cfg, size, s) && k < |s.up| && Tagged(cfg, size, s.up[k], k) && s.up[k] != []
    ensures var t, a := PollOne(s, k), s.up[k][0];
            Grouped(cfg, size, t) && a.c < cfg.n && View(cfg, size, s).units[a.c].events != []
            && View(cfg, size, s).units[a.c].events[0] == a.code
            && View(cfg, size, t).units == View(cfg, size, s).units[a.c := Popped(View(cfg, size, s).units[a.c])]
  {
    hide Behind;
    var t, a, v := PollOne(s, k), s.up[k][0], View(cfg, size, s);
    assert ClusterOf(size, a.c) == k;
    assert v.units[a.c].events == [a.code] + (Sent(s.up[k][1..], a.c) + s.flat.units[a.c].events);
    forall c | 0 <= c < cfg.n ensures ViewUnit(size, t, c) == if c == a.c then Popped(v.units[c]) else v.units[c] {
      SameBehind(size, s, t, c);
    }
    assert View(cfg, size, t).units == v.units[a.c := Popped(v.units[a.c])];
  }

  predicate Polling(cfg: Config, size: nat, s: Clustered) {
    && Grouped(cfg, size, s)
    && (forall k :: 0 <= k < |s.up| ==> Tagged(cfg, size, s.up[k], k))
    && var b, units := s.flat.barrier, View(cfg, size, s).units;
       UnitsInv(cfg, b.releases, b.completed, units)
       && b.stalled == Total(units, SeenStalls) && b.done == Total(units, SeenDone)
  }

  // What an arbiter that is polling leaves alone.
  predicate SameBut(s: Clustered, t: Clustered) {
    && t.down == s.down && t.hands == s.hands && t.telling == s.telling
    && t.flat.units == s.flat.units && t.flat.loader == s.flat.loader && |t.up| == |s.up|
    && t.flat.barrier == s.flat.barrier.(stalled := t.flat.barrier.stalled, done := t.flat.barrier.done)
  }

  lemma PollOneKeeps(cfg: Config, size: nat, k: nat, s: Clustered)
    requires Polling(cfg, size, s) && k < |s.up|
    ensures Polling(cfg, size, PollOne(s, k)) && SameBut(s, PollOne(s, k)) && |PollOne(s, k).up| == |s.up|
  {
    hide UnitInv, SeenStalls, SeenDone, Popped, Counts, View;
    if s.up[k] != [] {
      var a, b, units := s.up[k][0], s.flat.barrier, View(cfg, size, s).units;
      PollOneView(cfg, size, k, s);
      PopKept(cfg, a.c, b.releases, b.completed, units[a.c]);
      TotalUpdate(units, a.c, Popped(units[a.c]), SeenStalls);
      TotalUpdate(units, a.c, Popped(units[a.c]), SeenDone);
    }
  }

  lemma {:induction false} PollKeeps(cfg: Config, size: nat, k: nat, s: Clustered)
    requires Polling(cfg, size, s)
    ensures Polling(cfg, size, PollFrom(s, k)) && SameBut(s, PollFrom(s, k))
    decreases |s.up| - k
  {
    hide Polling;
    if k < |s.up| {
      PollOneKeeps(cfg, size, k, s);
      PollKeeps(cfg, size, k + 1, PollOne(s, k));
    }
  }

  /** Nothing is owed to a cluster by the arbiter. */
  predicate AllSent(s: Clustered) { s.telling.Telling? ==> s.telling.next >= |s.down| }

  /** Starting a broadcast looks like finishing it. */
  lemma ToldAll(cfg: Config, size: nat, sig: Signal, s: Clustered)
    requires Grouped(cfg, size, s) && AllSent(s)
    ensures var t := s.(telling := Telling(sig, 0));
            Grouped(cfg, size, t) && View(cfg, size, t).units == Broadcast(sig, View(cfg, size, s).units)
  {
    hide Sent;
    var t := s.(telling := Telling(sig, 0));
    forall c | 0 <= c < cfg.n ensures ViewUnit(size, t, c) == Told(sig, ViewUnit(size, s, c)) {
      var k, own := ClusterOf(size, c), s.flat.units[c].signals;
      var hand := Owed(s.hands[k], c);
      assert Behind(size, s, c) == hand + s.down[k];
      assert own + (hand + s.down[k] + [sig]) == (own + (hand + s.down[k])) + [sig];
    }
  }

  lemma SilentView(cfg: Config, size: nat, s: Clustered)
    requires Grouped(cfg, size, s) && AllSent(s)
    ensures var t := s.(telling := Nobody); Grouped(cfg, size, t) && View(cfg, size, t) == View(cfg, size, s)
  {
    hide Sent;
    var t := s.(telling := Nobody);
    forall c | 0 <= c < cfg.n ensures ViewUnit(size, t, c) == ViewUnit(size, s, c) {
    }
  }

  lemma ReleasedView(cfg: Config, size: nat, s: Clustered)
    requires Grouped(cfg, size, s) && AllSent(s) && ReleaseReady(s.flat.barrier)
    ensures Grouped(cfg, size, AnnounceRelease(s)) && View(cfg, size, AnnounceRelease(s)) == ReleaseStep(View(cfg, size, s))
  {
    hide ViewUnit, Broadcast;
    ToldAll(cfg, size, RELEASE, s);
    SameUnits(cfg, size, s.(telling := Telling(RELEASE, 0)), AnnounceRelease(s));
  }

  lemma FinishedView(cfg: Config, size: nat, s: Clustered)
    requires Grouped(cfg, size, s) && AllSent(s)
    ensures Grouped(cfg, size, AnnounceDone(s)) && View(cfg, size, AnnounceDone(s)) == CompleteStep(View(cfg, size, s))
  {
    hide ViewUnit, Broadcast;
    if KernelComplete(s.flat.barrier) {
      ToldAll(cfg, size, KERNEL_DONE, s);
      SameUnits(cfg, size, s.(telling := Telling(KERNEL_DONE, 0)), AnnounceDone(s));
    } else {
      SilentView(cfg, size, s);
    }
  }

  // The view of the units is a matter of units and streams.
  lemma SameUnits(cfg: Config, size: nat, s: Clustered, t: Clustered)
    requires Grouped(cfg, size, s) && Grouped(cfg, size, t)
    requires t == s.(flat := t.flat) && t.flat.units == s.flat.units && t.flat.loader == s.flat.loader
    ensures View(cfg, size, t) == View(cfg, size, s).(barrier := t.flat.barrier)
  {
    hide Sent, Behind;
    forall c | 0 <= c < cfg.n ensures ViewUnit(size, t, c) == ViewUnit(size, s, c) {
      SameBehind(size, s, t, c);
    }
  }

  /** A write of the arbiter changes nothing that is seen. */
  lemma SentView(cfg: Config, size: nat, depth: nat, s: Clustered)
    requires Grouped(cfg, size, s) && s.telling.Telling? && s.telling.next < |s.down|
    ensures var t := Arbitrate(cfg, depth, s);
            Grouped(cfg, size, t) && View(cfg, size, t) == View(cfg, size, s) && t.hands == s.hands && t.up == s.up
            && t.flat == s.flat && t.telling.Telling? && t.telling.sig == s.telling.sig
  {
    hide Sent, PollFrom, ReleaseReady, KernelComplete;
    var t, sig, k := Arbitrate(cfg, depth, s), s.telling.sig, s.telling.next;
    forall c | 0 <= c < cfg.n ensures ViewUnit(size, t, c) == ViewUnit(size, s, c) {
      if ClusterOf(size, c) == k && |s.down[k]| < depth {
        var hand := Owed(s.hands[k], c);
        assert hand + (s.down[k] + [sig]) + [] == hand + s.down[k] + [sig];
      }
    }
  }

  // The loader's invariant sees neither events nor signals.
  lemma LoadsView(cfg: Config, size: nat, s: Clustered, t: Clustered)
    requires Grouped(cfg, size, s) && Grouped(cfg, size, t) && Loads(cfg, View(cfg, size, s))
    requires t.flat.units == s.flat.units && t.flat.loader == s.flat.loader
    ensures Loads(cfg, View(cfg, size, t))
  {
    hide UnitLoad, LoaderOk, Sent;
    var v, w := View(cfg, size, s), View(cfg, size, t);
    forall c | 0 <= c < cfg.n ensures UnitLoad(cfg, w.loader, c, w.units[c]) {
      assert UnitLoad(cfg, v.loader, c, v.units[c]);
      LoadKept(cfg, s.flat.loader, c, ViewUnit(size, s, c), ViewUnit(size, t, c));
    }
  }

  lemma ArbitrateKeeps(cfg: Config, size: nat, depth: nat, s: Clustered)
    requires cfg.Valid() && RelayInv(cfg, size, s)
    ensures RelayInv(cfg, size, Arbitrate(cfg, depth, s))
  {
    hide View, Inv, PollFrom, LaunchBarrier, Tagged, HandOk, AnnounceRelease, AnnounceDone;
    var b := s.flat.barrier;
    if s.telling.Telling? {
      if s.telling.next < |s.down| {
        SentView(cfg, size, depth, s);
      } else if s.telling.sig.release {
        DoneKeeps(cfg, size, s);
      } else {
        SilentView(cfg, size, s);
      }
    } else if !b.completed && b.busy {
      PolledKeeps(cfg, size, s);
      AnnounceKeeps(cfg, size, PollFrom(s, 0));
    } else if !b.completed {
      ArbiterStarts(cfg, size, depth, s);
    }
  }

  lemma PolledKeeps(cfg: Config, size: nat, s: Clustered)
    requires cfg.Valid() && RelayInv(cfg, size, s) && s.flat.barrier.busy && s.telling.Nobody?
    ensures var p := PollFrom(s, 0); RelayInv(cfg, size, p) && p.flat.barrier.busy && p.telling.Nobody?
  {
    hide View, UnitsInv, Loads, SeenStalls, SeenDone, PollFrom, Tagged, HandOk;
    ViewParts(cfg, size, s);
    PollKeeps(cfg, size, 0, s);
    var p := PollFrom(s, 0);
    ViewParts(cfg, size, p);
    LoadsView(cfg, size, s, p);
  }

  lemma AnnounceKeeps(cfg: Config, size: nat, p: Clustered)
    requires cfg.Valid() && RelayInv(cfg, size, p) && p.flat.barrier.busy && p.telling.Nobody?
    ensures RelayInv(cfg, size, AnnounceRelease(p))
  {
    hide View, UnitsInv, Loads, SeenStalls, SeenDone, Tagged, HandOk, ReleaseStep;
    if ReleaseReady(p.flat.barrier) {
      ReleasedView(cfg, size, p);
      ViewParts(cfg, size, p);
      ReleaseStepKept(cfg, View(cfg, size, p));
      LoadsView(cfg, size, p, AnnounceRelease(p));
      ViewParts(cfg, size, AnnounceRelease(p));
    } else {
      DoneKeeps(cfg, size, p);
    }
  }

  lemma DoneKeeps(cfg: Config, size: nat, p: Clustered)
    requires cfg.Valid() && RelayInv(cfg, size, p) && p.flat.barrier.busy && AllSent(p)
    ensures RelayInv(cfg, size, AnnounceDone(p))
  {
    hide View, UnitsInv, Loads, SeenStalls, SeenDone, Tagged, HandOk, CompleteStep;
    FinishedView(cfg, size, p);
    ViewParts(cfg, size, p);
    CompleteStepKept(cfg, View(cfg, size, p));
    LoadsView(cfg, size, p, AnnounceDone(p));
    ViewParts(cfg, size, AnnounceDone(p));
  }

  lemma ViewParts(cfg: Config, size: nat, s: Clustered)
    requires Grouped(cfg, size, s)
    ensures View(cfg, size, s).barrier == s.flat.barrier && View(cfg, size, s).loader == s.flat.loader
  {
  }

  lemma ArbiterStarts(cfg: Config, size: nat, depth: nat, s: Clustered)
    requires cfg.Valid() && RelayInv(cfg, size, s) && s.telling.Nobody? && !s.flat.barrier.completed && !s.flat.barrier.busy
    ensures RelayInv(cfg, size, Arbitrate(cfg, depth, s))
  {
    hide Inv, Tagged, LaunchBarrier, Sent, Behind;
    var t := Arbitrate(cfg, depth, s);
    BarrierKeeps(cfg, View(cfg, size, s));
    SameUnits(cfg, size, s, t);
  }

  // ----- Loader, schedulers and pipelines -----

  /** A scheduler acts on what it sees of its flat self; it only misses signals
      its relay still holds. */
  lemma SchedulerView(cfg: Config, c: nat, u: Unit, ahead: seq<Code>, behind: seq<Signal>)
    ensures var v, w := With(u, ahead, behind), With(SchedulerPass(cfg, c, u), ahead, behind);
            if u.running && u.signals == [] then w == StatusStep(DispatchStep(v)) else w == SchedulerPass(cfg, c, v)
  {
    hide NextReady, RecordResult, ReleaseSlots, LaunchSlots, Dispatched, BuildDispatch;
    var v := With(u, ahead, behind);
    if u.running {
      assert With(DispatchStep(u), ahead, behind) == DispatchStep(v);
      StatusView(DispatchStep(u), ahead, behind);
      var x := StatusStep(DispatchStep(u));
      assert x.signals == u.signals;
    }
  }

  lemma StatusView(u: Unit, ahead: seq<Code>, behind: seq<Signal>)
    ensures With(StatusStep(u), ahead, behind) == StatusStep(With(u, ahead, behind))
  {
    hide RecordResult;
    if u.statuses != [] {
      var code := CodeOf(u.statuses[0].stop);
      assert ahead + (u.events + [code]) == (ahead + u.events) + [code];
    }
  }

  lemma PipelineView(cfg: Config, u: Unit, result: seq<Word>, ahead: seq<Code>, behind: seq<Signal>)
    ensures With(PipelinePass(cfg, u, result), ahead, behind) == PipelinePass(cfg, With(u, ahead, behind), result)
  {
  }

  lemma LoaderView(cfg: Config, size: nat, s: Clustered)
    requires Grouped(cfg, size, s)
    ensures var t := s.(flat := LoaderPass(cfg, s.flat));
            Grouped(cfg, size, t) && View(cfg, size, t) == LoaderPass(cfg, View(cfg, size, s)) && t.flat.barrier == s.flat.barrier
  {
    hide Sent, Initial, Behind;
    var t, v := s.(flat := LoaderPass(cfg, s.flat)), View(cfg, size, s);
    forall c | 0 <= c < cfg.n ensures ViewUnit(size, t, c) == LoaderPass(cfg, v).units[c] {
      SameBehind(size, s, t, c);
    }
    assert View(cfg, size, t).units == LoaderPass(cfg, v).units;
  }

  lemma OneUnitView(cfg: Config, size: nat, s: Clustered, c: nat, u: Unit)
    requires Grouped(cfg, size, s) && c < cfg.n
    ensures var t := s.(flat := s.flat.(units := s.flat.units[c := u]));
            Grouped(cfg, size, t)
            && View(cfg, size, t) == View(cfg, size, s).(units := View(cfg, size, s).units[c := With(u, Sent(s.up[ClusterOf(size, c)], c), Behind(size, s, c))])
  {
    hide Sent, Behind;
    var t := s.(flat := s.flat.(units := s.flat.units[c := u]));
    forall k | 0 <= k < cfg.n ensures Behind(size, t, k) == Behind(size, s, k) {
      SameBehind(size, s, t, k);
    }
    assert View(cfg, size, t).units == View(cfg, size, s).units[c := With(u, Sent(s.up[ClusterOf(size, c)], c), Behind(size, s, c))];
  }

  /** A scheduler that does not look at its signals keeps the invariant too. */
  lemma DeafKeeps(cfg: Config, s: System, c: nat)
    requires cfg.Valid() && Inv(cfg, s) && c < cfg.n && s.units[c].running
    ensures Inv(cfg, s.(units := s.units[c := StatusStep(DispatchStep(s.units[c]))]))
  {
    hide UnitInv, SeenStalls, SeenDone, LoaderOk, BarrierOk, DispatchStep, StatusStep, UnitLoad, SameLoad, Counts;
    var u, g, done := s.units[c], s.barrier.releases, s.barrier.completed;
    RunningLaunched(cfg, c, g, done, u);
    var v := DispatchStep(u);
    DispatchKept(cfg, c, g, done, u);
    StepsStay(u);
    StatusKept(cfg, c, g, done, v);
    StepsStay(v);
    QuietLoads(u);
    LoadKept(cfg, s.loader, c, u, StatusStep(v));
    UnitKeeps(cfg, s, c, StatusStep(v));
  }

  lemma QuietLoads(u: Unit)
    ensures SameLoad(u, StatusStep(DispatchStep(u)))
  {
    hide NextReady, RecordResult, Dispatched, BuildDispatch;
  }

  lemma OwnKeeps(cfg: Config, size: nat, p: Process, s: Clustered)
    requires cfg.Valid() && RelayInv(cfg, size, s) && !p.ARBITER?
    ensures RelayInv(cfg, size, s.(flat := Pass(cfg, p, s.flat)))
  {
    hide Inv, LoaderPass, SchedulerPass, PipelinePass, Sent, StatusStep, DispatchStep, Tagged, HandOk, Behind;
    var v := View(cfg, size, s);
    match p {
      case LOADER =>
        LoaderView(cfg, size, s);
        LoaderKeeps(cfg, v);
      case SCHEDULER(c) =>
        if c < cfg.n {
          var u, k := s.flat.units[c], ClusterOf(size, c);
          OneUnitView(cfg, size, s, c, SchedulerPass(cfg, c, u));
          SchedulerView(cfg, c, u, Sent(s.up[k], c), Behind(size, s, c));
          if u.running && u.signals == [] {
            DeafKeeps(cfg, v, c);
          } else {
            SchedulerKeeps(cfg, v, c);
          }
        }
      case PIPELINE(c, result) =>
        if c < cfg.n {
          var u, k := s.flat.units[c], ClusterOf(size, c);
          OneUnitView(cfg, size, s, c, PipelinePass(cfg, u, result));
          PipelineView(cfg, u, result, Sent(s.up[k], c), Behind(size, s, c));
          PipelineKeeps(cfg, v, c, result);
        }
    }
  }

  // ----- Every step of every process -----

  lemma ForwardKeeps(cfg: Config, size: nat, c: nat, s: Clustered)
    requires RelayInv(cfg, size, s) && c < cfg.n
    ensures RelayInv(cfg, size, Forward(cfg, size, c, s))
  {
    hide Inv, View;
    ForwardKeepsView(cfg, size, c, s);
  }

  lemma FanOutKeeps(cfg: Config, size: nat, depth: nat, k: nat, s: Clustered)
    requires RelayInv(cfg, size, s) && k < |s.down|
    ensures RelayInv(cfg, size, FanOut(size, depth, k, s))
  {
    hide Inv, View, HandOk;
    FanOutKeepsView(cfg, size, depth, k, s);
  }

  lemma StepKeeps(cfg: Config, size: nat, depth: nat, step: Step, s: Clustered)
    requires cfg.Valid() && RelayInv(cfg, size, s)
    ensures RelayInv(cfg, size, StepPass(cfg, size, depth, step, s))
  {
    hide RelayInv, Pass, Arbitrate, Forward, FanOut;
    assert Grouped(cfg, size, s) by { Regrouped(cfg, size, s); }
    match step
    case OWN(p) => if !p.ARBITER? { OwnKeeps(cfg, size, p, s); }
    case ARBITRATE => ArbitrateKeeps(cfg, size, depth, s);
    case FORWARD(c) => if c < cfg.n { ForwardKeeps(cfg, size, c, s); }
    case FANOUT(k) => if k < |s.down| { FanOutKeeps(cfg, size, depth, k, s); }
  }

  lemma Regrouped(cfg: Config, size: nat, s: Clustered)
    requires RelayInv(cfg, size, s)
    ensures Grouped(cfg, size, s)
  {
  }

  lemma {:induction false} AlwaysRelayInv(cfg: Config, size: nat, depth: nat, steps: seq<Step>, s: Clustered)
    requires cfg.Valid() && RelayInv(cfg, size, s)
    ensures RelayInv(cfg, size, Steps(cfg, size, depth, steps, s))
    decreases |steps|
  {
    hide RelayInv, StepPass;
    if steps != [] {
      StepKeeps(cfg, size, depth, steps[0], s);
      AlwaysRelayInv(cfg, size, depth, steps[1..], StepPass(cfg, size, depth, steps[0], s));
    }
  }

  lemma ClusterWithin(size: nat, clusters: nat, c: nat)
    requires 0 < size && c < clusters * size
    ensures ClusterOf(size, c) < clusters
  {
    var k := c / size;
    if k >= clusters {
      Placement(size, c % size, k, c);
      if k > clusters { Multiples(clusters, k, size); }
    }
  }

  lemma InitialRelayInv(cfg: Config, size: nat, s: Clustered)
    requires cfg.Valid() && InitialClustered(cfg, size, s)
    ensures RelayInv(cfg, size, s)
  {
    hide Inv, InitialUnit;
    forall c | 0 <= c < cfg.n ensures ClusterOf(size, c) < |s.up| {
      ClusterWithin(size, |s.up|, c);
    }
    forall c | 0 <= c < cfg.n ensures ViewUnit(size, s, c) == s.flat.units[c] {
      assert Behind(size, s, c) == [];
    }
    assert View(cfg, size, s).units == s.flat.units;
    InitialInv(cfg, s.flat);
  }

  ghost predicate ReachableClustered(cfg: Config, size: nat, depth: nat, s: Clustered) {
    exists start, steps :: InitialClustered(cfg, size, start) && s == Steps(cfg, size, depth, steps, start)
  }

  lemma ReachableRelayInv(cfg: Config, size: nat, depth: nat, s: Clustered)
    requires cfg.Valid() && ReachableClustered(cfg, size, depth, s)
    ensures RelayInv(cfg, size, s)
  {
    hide RelayInv, InitialClustered;
    var start, steps :| InitialClustered(cfg, size, start) && s == Steps(cfg, size, depth, steps, start);
    InitialRelayInv(cfg, size, start);
    AlwaysRelayInv(cfg, size, depth, steps, start);
  }

  // ----- What the relayed barrier guarantees -----

  /** No warp passes its k-th barrier before every warp of every cluster has met its own. */
  lemma RelayedBarrierSafety(cfg: Config, size: nat, depth: nat, s: Clustered, c: nat, j: nat, c': nat, j': nat, k: nat)
    requires cfg.Valid() && ReachableClustered(cfg, size, depth, s)
    requires HasSlot(cfg, s.flat, c, j) && HasSlot(cfg, s.flat, c', j')
    requires 0 < k < s.flat.units[c].runs[j]
    ensures s.flat.units[c'].runs[j'] >= k && StallsAt(cfg, cfg.Local(c', j'), k - 1)
    ensures s.flat.units[c].runs[j] <= s.flat.units[c'].runs[j'] + 1
  {
    hide Inv, Turn, Sent, Behind;
    ReachableRelayInv(cfg, size, depth, s);
    var v := View(cfg, size, s);
    RunsNearReleases(cfg, v, c, j);
    RunsNearReleases(cfg, v, c', j');
  }

  /** Release and completion are never both due, however many events the relays still hold. */
  lemma RelayedReleaseOrDone(cfg: Config, size: nat, depth: nat, s: Clustered)
    requires cfg.Valid() && ReachableClustered(cfg, size, depth, s) && s.flat.barrier.busy
    ensures var b := PollFrom(s, 0).flat.barrier; !(ReleaseReady(b) && KernelComplete(b))
    ensures ReleaseReady(PollFrom(s, 0).flat.barrier) ==> !KernelComplete(AnnounceRelease(PollFrom(s, 0)).flat.barrier)
  {
    hide SeenStalls, SeenDone, UnitsInv, Loads, View, Tagged;
    ReachableRelayInv(cfg, size, depth, s);
    ViewParts(cfg, size, s);
    PollKeeps(cfg, size, 0, s);
    var p := PollFrom(s, 0);
    if cfg.total > 0 {
      NeverBoth(cfg, s.flat.barrier.releases, false, View(cfg, size, p).units);
    }
  }

  /** A unit with warps has at most one signal on its way, and events for its own
      warps only, relay included. */
  lemma RelayedStreamBounds(cfg: Config, size: nat, depth: nat, s: Clustered, c: nat)
    requires cfg.Valid() && ReachableClustered(cfg, size, depth, s) && c < cfg.n
    ensures Grouped(cfg, size, s)
    ensures var u, k := s.flat.units[c], ClusterOf(size, c);
            && |Sent(s.up[k], c)| + |u.events| <= cfg.m && |u.dispatches| + |u.statuses| <= 1
            && (c < cfg.total ==> |u.signals| + |Behind(size, s, c)| <= 1)
  {
    hide Turn, Sent, Behind;
    ReachableRelayInv(cfg, size, depth, s);
    var v := View(cfg, size, s);
    var u, g, done := v.units[c], s.flat.barrier.releases, s.flat.barrier.completed;
    assert UnitInv(cfg, c, g, done, u) && Counts(u);
    EventsWithin(cfg, u);
  }

  /** A completed launch has run every warp through the same barriers. */
  lemma RelayedDoneMeansUniform(cfg: Config, size: nat, depth: nat, s: Clustered)
    requires cfg.Valid() && ReachableClustered(cfg, size, depth, s) && s.flat.barrier.completed
    ensures 0 < cfg.total <= cfg.n * cfg.m && Uniform(cfg, s.flat.barrier.releases)
    ensures forall c: nat, j: nat :: HasSlot(cfg, s.flat, c, j) ==> s.flat.units[c].runs[j] == s.flat.barrier.releases + 1
  {
    hide Inv, Turn, UnitInv, StallsBefore, StallsAt, Sent, Behind;
    ReachableRelayInv(cfg, size, depth, s);
    var v := View(cfg, size, s);
    DoneFits(cfg, v);
    forall c: nat, j: nat | HasSlot(cfg, s.flat, c, j) ensures s.flat.units[c].runs[j] == s.flat.barrier.releases + 1 {
      DoneSlot(cfg, v, c, j);
    }
    forall w | 0 <= w < cfg.total ensures StallsBefore(cfg, w, s.flat.barrier.releases) && !StallsAt(cfg, w, s.flat.barrier.releases) {
      DoneWarp(cfg, v, w);
    }
  }

  // ----- The relay as it runs -----

  lemma {:induction false} StepsAppend(cfg: Config, size: nat, depth: nat, steps: seq<Step>, last: Step, s: Clustered)
    ensures Steps(cfg, size, depth, steps + [last], s) == StepPass(cfg, size, depth, last, Steps(cfg, size, depth, steps, s))
    decreases |steps|
  {
    hide StepPass;
    if steps != [] {
      assert (steps + [last])[1..] == steps[1..] + [last];
      StepsAppend(cfg, size, depth, steps[1..], last, StepPass(cfg, size, depth, steps[0], s));
    } else {
      assert steps + [last] == [last];
      assert Steps(cfg, size, depth, [], StepPass(cfg, size, depth, last, s)) == StepPass(cfg, size, depth, last, s);
    }
  }

  function Codes(up: seq<Arrival>): seq<Code> {
    seq(|up|, i requires 0 <= i < |up| => up[i].code)
  }

  lemma CodesAppend(up: seq<Arrival>, a: Arrival)
    ensures Codes(up + [a]) == Codes(up) + [a.code]
  {
  }

  lemma Forwarded(cfg: Config, size: nat, depth: nat, k: nat, c: nat, s: Clustered)
    requires 0 < size && k < |s.down| == |s.up| == |s.hands| && k * size <= c < k * size + size && c < |s.flat.units|
    ensures var t, u := StepPass(cfg, size, depth, FORWARD(c), s), s.flat.units[c];
            && t.down == s.down && |t.up| == |s.up| && t.hands == s.hands
            && (if u.events == [] || |s.up[k]| >= cfg.m then t == s
                else t.up[k] == s.up[k] + [Arrival(c, u.events[0])] && t.flat.units == s.flat.units[c := u.(events := u.events[1..])])
  {
    UnitOf(size, k, c);
  }

  lemma FannedOut(cfg: Config, size: nat, depth: nat, k: nat, s: Clustered)
    requires 0 < size && k < |s.down| == |s.up| == |s.hands| && HandOk(size, s.hands[k], k) && k * size + size <= |s.flat.units|
    ensures var t := StepPass(cfg, size, depth, FANOUT(k), s);
            && t.up == s.up && |t.down| == |s.down| == |t.hands| && HandOk(size, t.hands[k], k) && |t.flat.units| == |s.flat.units|
            && if s.hands[k].Nobody? then
                 t.flat == s.flat
                 && if s.down[k] == [] then t == s
                    else t.down[k] == s.down[k][1..] && t.hands[k] == Telling(s.down[k][0], k * size)
               else
                 var sig, c := s.hands[k].sig, s.hands[k].next;
                 t.down == s.down
                 && if c == k * size + size then t.flat == s.flat && t.hands[k] == Nobody
                    else if |s.flat.units[c].signals| >= depth then t == s
                    else t.flat.units == s.flat.units[c := Told(sig, s.flat.units[c])] && t.hands[k] == Telling(sig, c + 1)
  {
    if s.hands[k].Telling? {
      UnitOf(size, k, s.hands[k].next);
    }
  }

  /** What a relay of cluster k may do. */
  predicate RelaysOnly(size: nat, k: nat, steps: seq<Step>) {
    forall i :: 0 <= i < |steps| ==>
      steps[i] == FANOUT(k) || (steps[i].FORWARD? && k * size <= steps[i].c < k * size + size)
  }

  /** `clusterBarrierRelay` of cluster k: a stream each way per unit, and one each way
      to the arbiter; where the current pass stands, for the write that may block it. */
  class ClusterRelay {
    const cfg: Config
    const depth: nat
    const k: nat
    const schedEvents: array<seq<Code>>
    const schedSignal: array<seq<Signal>>
    var eventsOut: seq<Code>
    var signalIn: seq<Signal>
    var next: nat
    var hand: Telling

    constructor (cfg: Config, depth: nat, size: nat, k: nat)
      ensures this.cfg == cfg && this.depth == depth && this.k == k && fresh(schedEvents) && fresh(schedSignal)
      ensures schedEvents.Length == schedSignal.Length == size && eventsOut == [] && signalIn == [] && next == 0 && hand == Nobody
      ensures forall i :: 0 <= i < size ==> schedEvents[i] == [] && schedSignal[i] == []
    {
      this.cfg, this.depth, this.k := cfg, depth, k;
      schedEvents := new seq<Code>[size](_ => []);
      schedSignal := new seq<Signal>[size](_ => []);
      eventsOut, signalIn, next, hand := [], [], 0, Nobody;
    }

    ghost predicate Fits(size: nat, s: Clustered) {
      && 0 < size == schedEvents.Length == schedSignal.Length
      && k < |s.up| == |s.down| == |s.hands| && k * size + size <= |s.flat.units| && HandOk(size, s.hands[k], k)
    }

    /** The relay's share of the system is what this object holds. */
    ghost predicate Shows(size: nat, s: Clustered)
      reads this, schedEvents, schedSignal
    {
      && Fits(size, s)
      && Codes(s.up[k]) == eventsOut && s.down[k] == signalIn && s.hands[k] == hand
      && (forall i :: 0 <= i < size ==> schedEvents[i] == s.flat.units[k * size + i].events)
      && forall i :: 0 <= i < size ==> schedSignal[i] == s.flat.units[k * size + i].signals
    }

    /** The event of the i-th unit, if there is one; true if its write has to wait. */
    method RelayEvent(size: nat, i: nat, ghost s: Clustered) returns (blocked: bool)
      requires Shows(size, s) && i < size
      modifies this`eventsOut, schedEvents
      ensures Shows(size, StepPass(cfg, size, depth, FORWARD(k * size + i), s))
      ensures blocked <==> old(schedEvents[i]) != [] && |old(eventsOut)| >= cfg.m
    {
      hide StepPass, Codes, HandOk;
      Forwarded(cfg, size, depth, k, k * size + i, s);
      assert |Codes(s.up[k])| == |s.up[k]| by { CodesLength(s.up[k]); }
      blocked := schedEvents[i] != [] && |eventsOut| >= cfg.m;
      if schedEvents[i] != [] && !blocked {
        CodesAppend(s.up[k], Arrival(k * size + i, schedEvents[i][0]));
        eventsOut := eventsOut + [schedEvents[i][0]];
        schedEvents[i] := schedEvents[i][1..];
      }
    }

    /** One write of the fan-out, or its beginning or end; true if the write has to wait. */
    method FanOutSignal(size: nat, ghost s: Clustered) returns (blocked: bool)
      requires Shows(size, s)
      modifies this`signalIn, this`hand, schedSignal
      ensures Shows(size, StepPass(cfg, size, depth, FANOUT(k), s))
      ensures blocked ==> StepPass(cfg, size, depth, FANOUT(k), s) == s && hand.Telling?
      ensures !blocked && old(hand).Telling? ==> hand.Nobody? || hand.next == old(hand).next + 1
    {
      hide StepPass, Codes;
      FannedOut(cfg, size, depth, k, s);
      blocked := false;
      if hand.Nobody? {
        if signalIn != [] {
          hand := Telling(signalIn[0], k * size);
          signalIn := signalIn[1..];
        }
      } else {
        var i := hand.next - k * size;
        if i == size {
          hand := Nobody;
        } else if |schedSignal[i]| >= depth {
          blocked := true;
        } else {
          schedSignal[i] := schedSignal[i] + [hand.sig];
          hand := Telling(hand.sig, hand.next + 1);
        }
      }
    }

    /** The events of the pass, from where it stands to the last unit or the write that blocks it. */
    method RunEvents(size: nat, ghost s: Clustered) returns (blocked: bool, ghost steps: seq<Step>)
      requires Shows(size, s) && next <= size
      modifies this`eventsOut, this`next, schedEvents
      ensures next <= size && RelaysOnly(size, k, steps) && Shows(size, Steps(cfg, size, depth, steps, s))
      ensures !blocked ==> next == size
    {
      hide StepPass, Codes, HandOk;
      steps, blocked := [], false;
      while next < size
        invariant next <= size && RelaysOnly(size, k, steps) && Shows(size, Steps(cfg, size, depth, steps, s))
      {
        blocked := RelayEvent(size, next, Steps(cfg, size, depth, steps, s));
        StepsAppend(cfg, size, depth, steps, FORWARD(k * size + next), s);
        steps := steps + [FORWARD(k * size + next)];
        if blocked {
          return;
        }
        next := next + 1;
      }
    }

    /** Then its signal, to the last unit or the write that blocks it. */
    method RunFanOut(size: nat, ghost s: Clustered) returns (blocked: bool, ghost steps: seq<Step>)
      requires Shows(size, s)
      modifies this`signalIn, this`hand, schedSignal
      ensures RelaysOnly(size, k, steps) && Shows(size, Steps(cfg, size, depth, steps, s))
      ensures !blocked ==> hand.Nobody?
    {
      hide StepPass, Codes;
      steps := [];
      if hand.Nobody? {
        blocked := FanOutSignal(size, s);
        StepsAppend(cfg, size, depth, steps, FANOUT(k), s);
        steps := steps + [FANOUT(k)];
      }
      while hand.Telling?
        invariant RelaysOnly(size, k, steps) && Shows(size, Steps(cfg, size, depth, steps, s))
        decreases if hand.Telling? then k * size + size + 1 - hand.next else 0
      {
        blocked := FanOutSignal(size, Steps(cfg, size, depth, steps, s));
        StepsAppend(cfg, size, depth, steps, FANOUT(k), s);
        steps := steps + [FANOUT(k)];
        if blocked {
          return;
        }
      }
      blocked := false;
    }

    /** The pass, from where it stands to its end or the write that blocks it. */
    method Run(size: nat, ghost s: Clustered) returns (blocked: bool, ghost steps: seq<Step>)
      requires Shows(size, s) && next <= size
      modifies this, schedEvents, schedSignal
      ensures next <= size && RelaysOnly(size, k, steps) && Shows(size, Steps(cfg, size, depth, steps, s))
      ensures !blocked ==> next == 0 && hand.Nobody?
    {
      hide StepPass, Codes, HandOk, Steps;
      ghost var t, more := s, [];
      blocked, steps := RunEvents(size, s);
      if blocked {
        return;
      }
      t := Steps(cfg, size, depth, steps, s);
      blocked, more := RunFanOut(size, t);
      StepsBoth(cfg, size, depth, steps, more, s);
      steps := steps + more;
      if !blocked {
        next := 0;
      }
    }
  }

  lemma {:induction false} StepsBoth(cfg: Config, size: nat, depth: nat, a: seq<Step>, b: seq<Step>, s: Clustered)
    ensures Steps(cfg, size, depth, a + b, s) == Steps(cfg, size, depth, b, Steps(cfg, size, depth, a, s))
    decreases |a|
  {
    hide StepPass;
    if a == [] {
      assert a + b == b;
    } else {
      assert (a + b)[1..] == a[1..] + b;
      StepsBoth(cfg, size, depth, a[1..], b, StepPass(cfg, size, depth, a[0], s));
    }
  }

  lemma CodesLength(up: seq<Arrival>)
    ensures |Codes(up)| == |up|
  {
  }
}

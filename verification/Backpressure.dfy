// The launch with signal streams of their declared depth: a write to a full stream
// blocks the arbiter in the middle of a broadcast
// (hls/src/scheduler/barrier_arbiter.h:158-202; gpgpu_top.cpp:158-165).

module Backpressure {
  import opened Isa
  import opened Slots
  import opened Sums
  import opened Protocol
  import opened Loading
  import opened Launch
  import opened Safety
  import opened Liveness
  import opened Relay

  /** The system, and the broadcast its arbiter is in. */
  datatype Wired = Wired(flat: System, telling: Telling)

  // ----- The arbiter, one write at a time -----

  function AnnounceDone(s: System): Wired {
    if KernelComplete(s.barrier) then Wired(s.(barrier := s.barrier.(busy := false, completed := true)), Telling(KERNEL_DONE, 0))
    else Wired(s, Nobody)
  }

  function AnnounceRelease(s: System): Wired {
    if ReleaseReady(s.barrier) then
      Wired(s.(barrier := s.barrier.(stalled := 0, releases := s.barrier.releases + 1)), Telling(RELEASE, 0))
    else AnnounceDone(s)
  }

  /** From the top of a pass to its first write, for any history. */
  function DecideLoop(cfg: Config, start: bool, s: System): Wired {
    if s.barrier.busy then AnnounceRelease(Poll(s))
    else if start then Wired(s.(barrier := LaunchBarrier(cfg, s.barrier)), Nobody)
    else Wired(s, Nobody)
  }

  // One launch: once complete, the arbiter rests.
  function Decide(cfg: Config, s: System): Wired {
    if s.barrier.completed then Wired(s, Nobody) else DecideLoop(cfg, true, s)
  }

  /** One write, which waits while the stream is full; after the last one the pass goes on. */
  function Tell(depth: nat, s: System, sig: Signal, c: nat): Wired {
    if c >= |s.units| then (if sig.release then AnnounceDone(s) else Wired(s, Nobody))
    else if |s.units[c].signals| >= depth then Wired(s, Telling(sig, c))
    else Wired(s.(units := s.units[c := Told(sig, s.units[c])]), Telling(sig, c + 1))
  }

  function ArbiterLoop(cfg: Config, depth: nat, start: bool, s: Wired): Wired {
    if s.telling.Nobody? then DecideLoop(cfg, start, s.flat) else Tell(depth, s.flat, s.telling.sig, s.telling.next)
  }

  function ArbiterStep(cfg: Config, depth: nat, s: Wired): Wired {
    if s.telling.Nobody? then Decide(cfg, s.flat) else Tell(depth, s.flat, s.telling.sig, s.telling.next)
  }

  function WiredPass(cfg: Config, depth: nat, p: Process, s: Wired): Wired {
    if p.ARBITER? then ArbiterStep(cfg, depth, s) else s.(flat := Pass(cfg, p, s.flat))
  }

  function WiredAfter(cfg: Config, depth: nat, passes: seq<Process>, s: Wired): Wired
    decreases |passes|
  {
    if passes == [] then s else WiredAfter(cfg, depth, passes[1..], WiredPass(cfg, depth, passes[0], s))
  }

  predicate InitialWired(cfg: Config, s: Wired) { InitialSystem(cfg, s.flat) && s.telling.Nobody? }

  // ----- As if the broadcast were over -----

  /** The system once what the arbiter owes its units is in their streams. */
  function Seen(s: Wired): System {
    s.flat.(units := seq(|s.flat.units|, c requires 0 <= c < |s.flat.units| => With(s.flat.units[c], [], Owed(s.telling, c))))
  }

  predicate TellingOk(cfg: Config, s: Wired) {
    s.telling.Telling? ==>
      s.telling.next <= cfg.n
      && if s.flat.barrier.completed then s.telling.sig == KERNEL_DONE else s.telling.sig == RELEASE && s.flat.barrier.busy
  }

  predicate WiredInv(cfg: Config, s: Wired) { Inv(cfg, Seen(s)) && TellingOk(cfg, s) }

  lemma NothingOwed(u: Unit)
    ensures With(u, [], []) == u
  {
    assert [] + u.events == u.events && u.signals + [] == u.signals;
  }

  lemma SeenAll(s: Wired)
    requires s.telling.Nobody? || s.telling.next >= |s.flat.units|
    ensures Seen(s) == s.flat
  {
    forall c | 0 <= c < |s.flat.units| ensures Seen(s).units[c] == s.flat.units[c] {
      NothingOwed(s.flat.units[c]);
    }
    assert Seen(s).units == s.flat.units;
  }

  /** Starting a broadcast looks like finishing it. */
  lemma SeenTold(s: System, sig: Signal)
    ensures Seen(Wired(s, Telling(sig, 0))).units == Broadcast(sig, s.units)
  {
    forall c | 0 <= c < |s.units| ensures With(s.units[c], [], [sig]) == Told(sig, s.units[c]) {
      assert [] + s.units[c].events == s.units[c].events;
    }
  }

  lemma SeenRelease(s: System)
    ensures ReleaseReady(s.barrier) ==> Seen(AnnounceRelease(s)) == ReleaseStep(s)
  {
    hide Broadcast, Seen;
    if ReleaseReady(s.barrier) {
      var t := AnnounceRelease(s);
      SeenTold(t.flat, RELEASE);
      assert Seen(t) == t.flat.(units := Seen(t).units) by { SeenParts(t); }
    }
  }

  lemma SeenDone(s: System)
    ensures Seen(AnnounceDone(s)) == CompleteStep(s)
  {
    hide Broadcast, Seen;
    var t := AnnounceDone(s);
    SeenParts(t);
    if KernelComplete(s.barrier) {
      SeenTold(t.flat, KERNEL_DONE);
    } else {
      SeenAll(t);
    }
  }

  lemma SeenParts(s: Wired)
    ensures Seen(s) == s.flat.(units := Seen(s).units) && |Seen(s).units| == |s.flat.units|
  {
  }

  /** A write changes nothing that is seen. */
  lemma WriteSeen(depth: nat, s: System, sig: Signal, c: nat)
    requires c < |s.units|
    ensures Seen(Tell(depth, s, sig, c)) == Seen(Wired(s, Telling(sig, c)))
  {
    var t, before := Tell(depth, s, sig, c), Wired(s, Telling(sig, c));
    if |s.units[c].signals| < depth {
      forall k | 0 <= k < |s.units| ensures Seen(t).units[k] == Seen(before).units[k] {
        assert s.units[c].signals + [sig] + [] == s.units[c].signals + [sig];
      }
      assert Seen(t).units == Seen(before).units;
    }
  }

  // ----- The invariant -----

  /** The loader's invariant sees neither events nor signals. */
  lemma StepLoads(cfg: Config, s: System, t: System)
    requires Loads(cfg, s) && (t == Poll(s) || t == ReleaseStep(s) || t == CompleteStep(s))
    ensures Loads(cfg, t)
  {
    hide UnitLoad, SameLoad, LoaderOk, Poll, ReleaseStep, CompleteStep;
    if 0 < cfg.n {
      SameLoadSteps(s, 0);
    } else {
      StepShape(s);
    }
    forall c | 0 <= c < cfg.n ensures UnitLoad(cfg, t.loader, c, t.units[c]) {
      SameLoadSteps(s, c);
      LoadKept(cfg, s.loader, c, s.units[c], t.units[c]);
    }
  }

  lemma StepShape(s: System)
    ensures |Poll(s).units| == |ReleaseStep(s).units| == |CompleteStep(s).units| == |s.units|
    ensures Poll(s).loader == ReleaseStep(s).loader == CompleteStep(s).loader == s.loader
  {
    hide Total;
  }

  lemma DecideKeeps(cfg: Config, s: System)
    requires cfg.Valid() && Inv(cfg, s)
    ensures WiredInv(cfg, Decide(cfg, s))
  {
    hide UnitsInv, Loads, SeenStalls, Launch.SeenDone, Seen, ReleaseStep, CompleteStep;
    if s.barrier.completed {
      SeenAll(Wired(s, Nobody));
    } else if !s.barrier.busy {
      var t := Decide(cfg, s);
      SeenAll(t);
      BarrierKeeps(cfg, s);
    } else {
      var p := Poll(s);
      PollKept(cfg, s);
      StepLoads(cfg, s, p);
      AnnounceKeeps(cfg, p);
    }
  }

  lemma AnnounceKeeps(cfg: Config, s: System)
    requires cfg.Valid() && Inv(cfg, s) && s.barrier.busy
    ensures WiredInv(cfg, AnnounceRelease(s))
  {
    hide UnitsInv, Loads, SeenStalls, Launch.SeenDone, Seen, ReleaseStep;
    if ReleaseReady(s.barrier) {
      SeenRelease(s);
      ReleaseStepKept(cfg, s);
      StepLoads(cfg, s, ReleaseStep(s));
      StillOpen(s);
    } else {
      AnnounceDoneKeeps(cfg, s);
    }
  }

  lemma StillOpen(s: System)
    ensures ReleaseStep(s).barrier.completed == s.barrier.completed
    ensures ReleaseReady(s.barrier) ==> AnnounceRelease(s).telling == Telling(RELEASE, 0)
  {
  }

  lemma AnnounceDoneKeeps(cfg: Config, s: System)
    requires cfg.Valid() && Inv(cfg, s) && s.barrier.busy
    ensures WiredInv(cfg, AnnounceDone(s))
  {
    hide UnitsInv, Loads, SeenStalls, Launch.SeenDone, Seen, CompleteStep;
    SeenDone(s);
    CompleteStepKept(cfg, s);
    StepLoads(cfg, s, CompleteStep(s));
  }

  lemma TellKeeps(cfg: Config, depth: nat, s: Wired)
    requires cfg.Valid() && WiredInv(cfg, s) && s.telling.Telling?
    ensures WiredInv(cfg, Tell(depth, s.flat, s.telling.sig, s.telling.next))
  {
    hide Inv, Seen, AnnounceDone;
    var sig, c := s.telling.sig, s.telling.next;
    if c < |s.flat.units| {
      WriteSeen(depth, s.flat, sig, c);
      UnitNumber(cfg, s);
    } else {
      SeenAll(s);
      if sig.release {
        AnnounceDoneKeeps(cfg, s.flat);
      } else {
        SeenAll(Wired(s.flat, Nobody));
      }
    }
  }

  lemma UnitNumber(cfg: Config, s: Wired)
    requires Inv(cfg, Seen(s))
    ensures |s.flat.units| == cfg.n
  {
  }

  // ----- Loader, schedulers and pipelines -----

  lemma LoaderSeen(cfg: Config, s: Wired)
    ensures Seen(s.(flat := LoaderPass(cfg, s.flat))) == LoaderPass(cfg, Seen(s))
  {
    hide Initial;
    var t, v := s.(flat := LoaderPass(cfg, s.flat)), Seen(s);
    forall c | 0 <= c < |s.flat.units| ensures Seen(t).units[c] == LoaderPass(cfg, v).units[c] {
    }
    assert Seen(t).units == LoaderPass(cfg, v).units;
  }

  lemma OneUnitSeen(s: Wired, c: nat, u: Unit)
    requires c < |s.flat.units|
    ensures var t := s.(flat := s.flat.(units := s.flat.units[c := u]));
            Seen(t) == Seen(s).(units := Seen(s).units[c := With(u, [], Owed(s.telling, c))])
  {
    var t := s.(flat := s.flat.(units := s.flat.units[c := u]));
    assert Seen(t).units == Seen(s).units[c := With(u, [], Owed(s.telling, c))];
  }

  lemma OwnWiredKeeps(cfg: Config, p: Process, s: Wired)
    requires cfg.Valid() && WiredInv(cfg, s) && !p.ARBITER?
    ensures WiredInv(cfg, s.(flat := Pass(cfg, p, s.flat)))
  {
    hide Inv, LoaderPass, SchedulerPass, PipelinePass, StatusStep, DispatchStep, Seen;
    var v := Seen(s);
    SeenParts(s);
    UnitNumber(cfg, s);
    match p {
      case LOADER =>
        LoaderSeen(cfg, s);
        LoaderKeeps(cfg, v);
        LoaderBarrier(cfg, s.flat);
      case SCHEDULER(c) =>
        if c < cfg.n {
          var u, owed := s.flat.units[c], Owed(s.telling, c);
          OneUnitSeen(s, c, u);
          SeenUnit(s, c);
          OneUnitSeen(s, c, SchedulerPass(cfg, c, u));
          SchedulerView(cfg, c, u, [], owed);
          if u.running && u.signals == [] {
            DeafKeeps(cfg, v, c);
          } else {
            SchedulerKeeps(cfg, v, c);
          }
        }
      case PIPELINE(c, result) =>
        if c < cfg.n {
          var u, owed := s.flat.units[c], Owed(s.telling, c);
          SeenUnit(s, c);
          OneUnitSeen(s, c, PipelinePass(cfg, u, result));
          PipelineView(cfg, u, result, [], owed);
          PipelineKeeps(cfg, v, c, result);
        }
    }
  }

  lemma SeenUnit(s: Wired, c: nat)
    requires c < |s.flat.units|
    ensures Seen(s).units[c] == With(s.flat.units[c], [], Owed(s.telling, c))
    ensures With(s.flat.units[c], [], Owed(s.telling, c)).running == s.flat.units[c].running
  {
  }

  lemma LoaderBarrier(cfg: Config, s: System)
    ensures LoaderPass(cfg, s).barrier == s.barrier
  {
  }

  lemma WiredPassKeeps(cfg: Config, depth: nat, p: Process, s: Wired)
    requires cfg.Valid() && WiredInv(cfg, s)
    ensures WiredInv(cfg, WiredPass(cfg, depth, p, s))
  {
    hide Inv, Seen, Pass, Decide, Tell, TellingOk;
    if !p.ARBITER? {
      OwnWiredKeeps(cfg, p, s);
    } else if s.telling.Nobody? {
      SeenAll(s);
      DecideKeeps(cfg, s.flat);
    } else {
      TellKeeps(cfg, depth, s);
    }
  }

  lemma {:induction false} AlwaysWiredInv(cfg: Config, depth: nat, passes: seq<Process>, s: Wired)
    requires cfg.Valid() && WiredInv(cfg, s)
    ensures WiredInv(cfg, WiredAfter(cfg, depth, passes, s))
    decreases |passes|
  {
    hide WiredInv, WiredPass;
    if passes != [] {
      WiredPassKeeps(cfg, depth, passes[0], s);
      AlwaysWiredInv(cfg, depth, passes[1..], WiredPass(cfg, depth, passes[0], s));
    }
  }

  ghost predicate ReachableWired(cfg: Config, depth: nat, s: Wired) {
    exists start, passes :: InitialWired(cfg, start) && s == WiredAfter(cfg, depth, passes, start)
  }

  lemma InitialWiredInv(cfg: Config, s: Wired)
    requires cfg.Valid() && InitialWired(cfg, s)
    ensures WiredInv(cfg, s)
  {
    hide Inv, InitialSystem, Seen;
    SeenAll(s);
    InitialInv(cfg, s.flat);
  }

  lemma ReachableWiredInv(cfg: Config, depth: nat, s: Wired)
    requires cfg.Valid() && ReachableWired(cfg, depth, s)
    ensures WiredInv(cfg, s)
  {
    hide WiredInv, InitialWired;
    var start, passes :| InitialWired(cfg, start) && s == WiredAfter(cfg, depth, passes, start);
    InitialWiredInv(cfg, start);
    AlwaysWiredInv(cfg, depth, passes, start);
  }

  // ----- Safety, in the middle of a broadcast too -----

  /** No warp passes its k-th barrier before every warp of the launch has met its own. */
  lemma WiredBarrierSafety(cfg: Config, depth: nat, s: Wired, c: nat, j: nat, c': nat, j': nat, k: nat)
    requires cfg.Valid() && ReachableWired(cfg, depth, s)
    requires HasSlot(cfg, s.flat, c, j) && HasSlot(cfg, s.flat, c', j')
    requires 0 < k < s.flat.units[c].runs[j]
    ensures s.flat.units[c'].runs[j'] >= k && StallsAt(cfg, cfg.Local(c', j'), k - 1)
    ensures s.flat.units[c].runs[j] <= s.flat.units[c'].runs[j'] + 1
  {
    hide Inv, Turn;
    ReachableWiredInv(cfg, depth, s);
    RunsNearReleases(cfg, Seen(s), c, j);
    RunsNearReleases(cfg, Seen(s), c', j');
  }

  /** A completed launch has run every warp through the same barriers. */
  lemma WiredDoneMeansUniform(cfg: Config, depth: nat, s: Wired)
    requires cfg.Valid() && ReachableWired(cfg, depth, s) && s.flat.barrier.completed
    ensures 0 < cfg.total <= cfg.n * cfg.m && Uniform(cfg, s.flat.barrier.releases)
    ensures forall c: nat, j: nat :: HasSlot(cfg, s.flat, c, j) ==> s.flat.units[c].runs[j] == s.flat.barrier.releases + 1
  {
    hide Inv, Turn, UnitInv, StallsBefore, StallsAt;
    ReachableWiredInv(cfg, depth, s);
    var v := Seen(s);
    DoneFits(cfg, v);
    forall c: nat, j: nat | HasSlot(cfg, s.flat, c, j) ensures s.flat.units[c].runs[j] == s.flat.barrier.releases + 1 {
      DoneSlot(cfg, v, c, j);
    }
    forall w | 0 <= w < cfg.total ensures StallsBefore(cfg, w, s.flat.barrier.releases) && !StallsAt(cfg, w, s.flat.barrier.releases) {
      DoneWarp(cfg, v, w);
    }
  }

  // ----- Progress -----

  function ToTell(cfg: Config, t: Telling): int { if t.Telling? then cfg.n + 1 - t.next else 0 }

  /** Falls with every pass that does anything, single writes included. */
  function WiredWork(cfg: Config, b: nat, s: Wired): int { Work(cfg, b, Seen(s)) * (cfg.n + 2) + ToTell(cfg, s.telling) }

  predicate WiredFalls(cfg: Config, b: nat, s: Wired, t: Wired) {
    t == s || WiredWork(cfg, b, t) < WiredWork(cfg, b, s)
  }

  lemma LessWork(cfg: Config, b: nat, s: Wired, t: Wired)
    requires Work(cfg, b, Seen(t)) < Work(cfg, b, Seen(s)) && ToTell(cfg, t.telling) <= ToTell(cfg, s.telling) + cfg.n + 1
    ensures WiredWork(cfg, b, t) < WiredWork(cfg, b, s)
  {
    hide Work, Seen, ToTell;
    var x, y := Work(cfg, b, Seen(t)), Work(cfg, b, Seen(s));
    assert x * (cfg.n + 2) <= (y - 1) * (cfg.n + 2) == y * (cfg.n + 2) - (cfg.n + 2);
  }

  /** What an arbiter does between two broadcasts. */
  lemma DecideFalls(cfg: Config, b: nat, s: System)
    requires cfg.Valid() && !cfg.Faulty() && Inv(cfg, s)
    ensures WiredFalls(cfg, b, Wired(s, Nobody), Decide(cfg, s))
    ensures Decide(cfg, s) == Wired(s, Nobody) ==> BarrierIdle(s)
  {
    hide Work, Seen, Poll, AnnounceRelease, Quiet, Loads, UnitsInv, SeenStalls, Launch.SeenDone;
    var before, after := Wired(s, Nobody), Decide(cfg, s);
    SeenAll(before);
    if s.barrier.completed {
    } else if !s.barrier.busy {
      LaunchFalls(cfg, b, s);
      SeenAll(after);
      LessWork(cfg, b, before, after);
    } else {
      UnitCount(cfg, s);
      PolledShape(s);
      PollFalls(cfg, b, s);
      AnnounceFalls(cfg, b, s, Poll(s));
    }
  }

  lemma AnnounceFalls(cfg: Config, b: nat, s: System, p: System)
    requires |p.units| == cfg.n && p.barrier.busy && !p.barrier.completed && Falls(cfg, b, s, p)
    ensures WiredFalls(cfg, b, Wired(s, Nobody), AnnounceRelease(p))
    ensures AnnounceRelease(p) == Wired(s, Nobody) ==> p == s && !ReleaseReady(p.barrier) && !KernelComplete(p.barrier)
  {
    hide Work, Seen, ReleaseStep, CompleteStep, WiredWork;
    var before, after := Wired(s, Nobody), AnnounceRelease(p);
    SeenAll(before);
    SeenRelease(p);
    SeenDone(p);
    if ReleaseReady(p.barrier) {
      ReleaseFalls(cfg, b, p);
      LessWork(cfg, b, before, after);
    } else if KernelComplete(p.barrier) {
      CompleteFalls(cfg, b, p);
      LessWork(cfg, b, before, after);
    } else if p != s {
      SeenAll(after);
      LessWork(cfg, b, before, after);
    }
  }

  lemma TellFalls(cfg: Config, b: nat, depth: nat, s: Wired)
    requires cfg.Valid() && WiredInv(cfg, s) && s.telling.Telling?
    ensures var t := Tell(depth, s.flat, s.telling.sig, s.telling.next);
            WiredFalls(cfg, b, s, t)
            && (t == s ==> s.telling.next < |s.flat.units| && |s.flat.units[s.telling.next].signals| >= depth)
  {
    hide Work, Seen, Inv, AnnounceDone;
    var sig, c := s.telling.sig, s.telling.next;
    var t := Tell(depth, s.flat, sig, c);
    UnitNumber(cfg, s);
    if c < |s.flat.units| {
      WriteSeen(depth, s.flat, sig, c);
    } else {
      SeenAll(s);
      LastFalls(cfg, b, s.flat, sig);
    }
  }

  lemma LastFalls(cfg: Config, b: nat, s: System, sig: Signal)
    requires |s.units| == cfg.n && (sig.release ==> s.barrier.busy && !s.barrier.completed)
    ensures var t := if sig.release then AnnounceDone(s) else Wired(s, Nobody);
            t.telling != Telling(sig, cfg.n) && WiredWork(cfg, b, t) < Work(cfg, b, s) * (cfg.n + 2) + 1
  {
    hide Work, Seen, CompleteStep;
    SeenAll(Wired(s, Nobody));
    if sig.release && KernelComplete(s.barrier) {
      SeenDone(s);
      CompleteFalls(cfg, b, s);
      var x, y := Work(cfg, b, CompleteStep(s)), Work(cfg, b, s);
      assert x * (cfg.n + 2) <= (y - 1) * (cfg.n + 2) == y * (cfg.n + 2) - (cfg.n + 2);
    }
  }

  lemma SameOwed(u: Unit, v: Unit, owed: seq<Signal>)
    requires With(u, [], owed) == With(v, [], owed)
    ensures u == v
  {
    assert u.events == [] + u.events == [] + v.events == v.events;
    assert u.signals == (u.signals + owed)[..|u.signals|] && v.signals == (v.signals + owed)[..|v.signals|];
  }

  lemma UnitFallsWired(cfg: Config, b: nat, s: Wired, c: nat, u: Unit)
    requires c < |s.flat.units| && Less(With(s.flat.units[c], [], Owed(s.telling, c)), With(u, [], Owed(s.telling, c)))
    ensures WiredFalls(cfg, b, s, s.(flat := s.flat.(units := s.flat.units[c := u])))
  {
    hide Work, Seen, Less, UnitWork, With, WiredWork;
    var owed, t := Owed(s.telling, c), s.(flat := s.flat.(units := s.flat.units[c := u]));
    OneUnitSeen(s, c, u);
    SeenUnit(s, c);
    SeenParts(s);
    UnitFalls(cfg, b, Seen(s), c, With(u, [], owed));
    if Seen(t) == Seen(s) {
      SeenParts(t);
      SeenUnit(t, c);
      SameOwed(u, s.flat.units[c], owed);
      assert s.flat.units[c := u] == s.flat.units;
    } else {
      LessWork(cfg, b, s, t);
    }
  }

  lemma SchedulerWiredLess(cfg: Config, c: nat, u: Unit, owed: seq<Signal>)
    requires !u.running ==> !u.busy || u.tokens == 0
    ensures Less(With(u, [], owed), With(SchedulerPass(cfg, c, u), [], owed))
  {
    hide SchedulerPass, DispatchStep, StatusStep, UnitWork, Less;
    var v := With(u, [], owed);
    SchedulerView(cfg, c, u, [], owed);
    SameControls(u, [], owed);
    if u.running && u.signals == [] {
      DispatchLess(v);
      StatusLess(DispatchStep(v));
      assert Less(v, StatusStep(DispatchStep(v))) by { LessThrough(v, DispatchStep(v), StatusStep(DispatchStep(v))); }
    } else {
      SchedulerLess(cfg, c, v);
    }
  }

  lemma SameControls(u: Unit, ahead: seq<Code>, owed: seq<Signal>)
    ensures var v := With(u, ahead, owed); v.running == u.running && v.busy == u.busy && v.tokens == u.tokens
  {
  }

  lemma LessThrough(u: Unit, v: Unit, w: Unit)
    requires Less(u, v) && Less(v, w)
    ensures Less(u, w)
  {
    hide UnitWork;
  }

  lemma OwnWiredFalls(cfg: Config, b: nat, p: Process, s: Wired)
    requires cfg.Valid() && WiredInv(cfg, s) && !p.ARBITER?
    ensures WiredFalls(cfg, b, s, s.(flat := Pass(cfg, p, s.flat)))
  {
    hide Inv, LoaderPass, SchedulerPass, PipelinePass, Seen, WiredFalls, Less, With;
    var v := Seen(s);
    SeenParts(s);
    UnitNumber(cfg, s);
    match p {
      case LOADER => LoaderWiredFalls(cfg, b, s);
      case SCHEDULER(c) =>
        if c < cfg.n {
          var u := s.flat.units[c];
          NotRunning(cfg, v, c);
          SeenUnit(s, c);
          SameControls(u, [], Owed(s.telling, c));
          SchedulerWiredLess(cfg, c, u, Owed(s.telling, c));
          UnitFallsWired(cfg, b, s, c, SchedulerPass(cfg, c, u));
        } else {
          StaysWired(cfg, b, s);
        }
      case PIPELINE(c, result) =>
        if c < cfg.n {
          var u, owed := s.flat.units[c], Owed(s.telling, c);
          SeenUnit(s, c);
          DispatchInRange(cfg, v, c);
          PipelineView(cfg, u, result, [], owed);
          PipelineLess(cfg, v.units[c], result);
          UnitFallsWired(cfg, b, s, c, PipelinePass(cfg, u, result));
        } else {
          StaysWired(cfg, b, s);
        }
    }
  }

  lemma StaysWired(cfg: Config, b: nat, s: Wired)
    ensures WiredFalls(cfg, b, s, s)
  {
  }

  lemma DispatchInRange(cfg: Config, s: System, c: nat)
    requires Inv(cfg, s) && c < cfg.n
    ensures var u := s.units[c]; u.dispatches != [] ==> u.dispatches[0].slot < |u.runs|
  {
    hide LoaderOk, BarrierOk, SlotsOk, SignalsOk, UnitLoad;
    assert UnitInv(cfg, c, s.barrier.releases, s.barrier.completed, s.units[c]);
  }

  lemma LoaderWiredFalls(cfg: Config, b: nat, s: Wired)
    requires cfg.Valid() && WiredInv(cfg, s)
    ensures WiredFalls(cfg, b, s, s.(flat := LoaderPass(cfg, s.flat)))
  {
    hide Inv, LoaderPass, Seen, Work, WiredWork;
    var t := s.(flat := LoaderPass(cfg, s.flat));
    LoaderSeen(cfg, s);
    LoaderFalls(cfg, b, Seen(s));
    if Seen(t) == Seen(s) {
      SameSeen(s, t);
    } else {
      LessWork(cfg, b, s, t);
    }
  }

  lemma SameSeen(s: Wired, t: Wired)
    requires Seen(s) == Seen(t) && s.telling == t.telling
    ensures s == t
  {
    hide With;
    SeenParts(s);
    SeenParts(t);
    forall c | 0 <= c < |s.flat.units| ensures s.flat.units[c] == t.flat.units[c] {
      SeenUnit(s, c);
      SeenUnit(t, c);
      SameOwed(s.flat.units[c], t.flat.units[c], Owed(s.telling, c));
    }
    assert s.flat.units == t.flat.units;
  }

  /** Every pass leaves the state alone or brings the launch closer to its end. */
  lemma WiredPassFalls(cfg: Config, b: nat, depth: nat, p: Process, s: Wired)
    requires cfg.Valid() && !cfg.Faulty() && WiredInv(cfg, s)
    ensures WiredFalls(cfg, b, s, WiredPass(cfg, depth, p, s))
  {
    hide Inv, Pass, Seen, Decide, Tell, WiredFalls, TellingOk;
    if !p.ARBITER? {
      OwnWiredFalls(cfg, b, p, s);
    } else if s.telling.Nobody? {
      SeenAll(s);
      DecideFalls(cfg, b, s.flat);
    } else {
      TellFalls(cfg, b, depth, s);
    }
  }

  // ----- No deadlock -----

  /** The round steps the scheduler of every unit, units without warps included. */
  predicate StepsAll(cfg: Config, round: seq<Process>) {
    forall c :: 0 <= c < cfg.n ==> SCHEDULER(c) in round
  }

  /** Streams of this depth hold all releases of the launch, or every unit has warps. */
  predicate Roomy(cfg: Config, b: nat, depth: nat) { cfg.total >= cfg.n || b <= depth }

  predicate WiredStutter(cfg: Config, depth: nat, round: seq<Process>, s: Wired) {
    forall i :: 0 <= i < |round| ==> WiredPass(cfg, depth, round[i], s) == s
  }

  lemma OwnStutters(cfg: Config, depth: nat, p: Process, s: Wired)
    requires WiredPass(cfg, depth, p, s) == s && !p.ARBITER?
    ensures Pass(cfg, p, s.flat) == s.flat
  {
  }

  /** A release never finds a full stream if the streams hold all of them. */
  lemma NeverFull(cfg: Config, b: nat, depth: nat, s: Wired)
    requires cfg.Valid() && WiredInv(cfg, s) && 0 < cfg.total && Uniform(cfg, b) && Roomy(cfg, b, depth) && 0 < depth
    requires s.telling.Telling? && s.telling.next < cfg.n && !s.flat.barrier.completed
    ensures |s.flat.units| == cfg.n && |s.flat.units[s.telling.next].signals| < depth
  {
    hide Inv, Uniform, Seen;
    var c := s.telling.next;
    UnitNumber(cfg, s);
    SeenParts(s);
    SeenUnit(s, c);
    FewReleases(cfg, b, Seen(s));
    SignalRoom(cfg, Seen(s), c);
  }

  lemma SignalRoom(cfg: Config, s: System, c: nat)
    requires cfg.Valid() && Inv(cfg, s) && c < cfg.n && !s.barrier.completed
    ensures c < |s.units| && |s.units[c].signals| <= s.barrier.releases && (c < cfg.total ==> |s.units[c].signals| <= 1)
  {
    hide LoaderOk, BarrierOk, SlotsOk, FlightOk, UnitLoad;
    assert UnitInv(cfg, c, s.barrier.releases, false, s.units[c]);
  }

  /** A full stream is read, by a scheduler that steps. */
  lemma FullIsRead(cfg: Config, depth: nat, s: Wired, round: seq<Process>)
    requires cfg.Valid() && !cfg.Faulty() && WiredInv(cfg, s) && 0 < depth && Covers(cfg, round) && StepsAll(cfg, round)
    requires s.telling.Telling? && s.telling.next < cfg.n && !s.flat.barrier.completed
    requires |s.flat.units| == cfg.n && |s.flat.units[s.telling.next].signals| >= depth
    ensures !WiredStutter(cfg, depth, round, s)
  {
    hide Inv, Seen, Pass, Covers;
    if WiredStutter(cfg, depth, round, s) {
      var c := s.telling.next;
      assert SCHEDULER(c) in round;
      LoaderAtRest(cfg, depth, round, s);
      SeenParts(s);
      SeenUnit(s, c);
      OwnStutters(cfg, depth, SCHEDULER(c), s);
      TokenAtHand(cfg, Seen(s), c);
      ReaderMoves(cfg, s, c);
    }
  }

  lemma ReaderMoves(cfg: Config, s: Wired, c: nat)
    requires !cfg.Faulty() && c < |s.flat.units|
    requires var u := s.flat.units[c]; u.signals != [] && (!u.running ==> u.tokens > 0 && !u.busy)
    ensures Pass(cfg, SCHEDULER(c), s.flat) != s.flat
  {
    hide SchedulerPass, Pass;
    SchedulerLess(cfg, c, s.flat.units[c]);
    PassOfUnit(cfg, c, s.flat);
  }

  lemma PassOfUnit(cfg: Config, c: nat, s: System)
    requires c < |s.units|
    ensures c < |Pass(cfg, SCHEDULER(c), s).units| && Pass(cfg, SCHEDULER(c), s).units[c] == SchedulerPass(cfg, c, s.units[c])
  {
    hide SchedulerPass;
  }

  // Once the loader is done, a unit that waits for signals has launched or holds its token.
  lemma TokenAtHand(cfg: Config, s: System, c: nat)
    requires cfg.Valid() && Inv(cfg, s) && c < |s.units| && s.loader.regsDone && !s.barrier.completed
    ensures var u := s.units[c]; !u.running ==> u.tokens > 0 && !u.busy
  {
    hide LoaderOk, BarrierOk, SlotsOk, StoreOk, SeedsOk, RegsOk;
    assert UnitInv(cfg, c, s.barrier.releases, false, s.units[c]) && UnitLoad(cfg, s.loader, c, s.units[c]);
  }

  lemma LoaderAtRest(cfg: Config, depth: nat, round: seq<Process>, s: Wired)
    requires cfg.Valid() && WiredInv(cfg, s) && Covers(cfg, round) && WiredStutter(cfg, depth, round, s)
    ensures s.flat.loader.regsDone
  {
    hide Inv, Seen, Pass, LoaderPass, Blocked, PipelinePass, LoaderIdle;
    assert LOADER in round;
    OwnStutters(cfg, depth, LOADER, s);
    SeenParts(s);
    LoaderSound(cfg, Seen(s));
    LoaderStays(cfg, s.flat);
    LoaderStutters(cfg, s.flat);
    UnitNumber(cfg, s);
    IdleLoader(cfg, s.flat);
    if !s.flat.loader.regsDone {
      Unblocked(cfg, depth, round, s);
    }
  }

  lemma LoaderStays(cfg: Config, s: System)
    requires Pass(cfg, LOADER, s) == s
    ensures LoaderPass(cfg, s) == s
  {
  }

  lemma IdleLoader(cfg: Config, s: System)
    requires LoaderIdle(cfg, s)
    ensures s.loader.regsDone || (s.loader.c < |s.units| && Blocked(cfg, s.loader, s.units[s.loader.c]))
  {
  }

  lemma LoaderSound(cfg: Config, s: System)
    requires Inv(cfg, s)
    ensures LoaderOk(cfg, s.loader)
  {
  }

  // A seed stream that stays full belongs to a unit whose pipeline never steps.
  lemma Unblocked(cfg: Config, depth: nat, round: seq<Process>, s: Wired)
    requires cfg.Valid() && WiredInv(cfg, s) && Covers(cfg, round) && WiredStutter(cfg, depth, round, s)
    requires s.flat.loader.c < |s.flat.units| == cfg.n
    ensures !Blocked(cfg, s.flat.loader, s.flat.units[s.flat.loader.c])
  {
    hide Inv, Pass, PipelinePass, Seen;
    var l := s.flat.loader;
    var c, u := l.c, s.flat.units[l.c];
    if c >= cfg.total {
      NoWarps(cfg, c, l.slot);
    } else {
      assert HasPipeline(round, c);
      var i :| 0 <= i < |round| && round[i].PIPELINE? && round[i].c == c;
      var p := round[i];
      OwnStutters(cfg, depth, p, s);
      SeenUnit(s, c);
      SeenParts(s);
      DispatchInRange(cfg, Seen(s), c);
      PipelineStays(cfg, c, p.result, s.flat);
      PipelineLess(cfg, u, p.result);
    }
  }

  lemma PipelineStays(cfg: Config, c: nat, result: seq<Word>, s: System)
    requires c < |s.units| && Pass(cfg, PIPELINE(c, result), s) == s
    ensures PipelinePass(cfg, s.units[c], result) == s.units[c]
  {
    hide PipelinePass;
    assert s.(units := s.units[c := PipelinePass(cfg, s.units[c], result)]).units[c] == PipelinePass(cfg, s.units[c], result);
  }

  /** A round in which nothing moves follows completion only. */
  lemma WiredNoDeadlock(cfg: Config, b: nat, depth: nat, round: seq<Process>, s: Wired)
    requires cfg.Valid() && !cfg.Faulty() && WiredInv(cfg, s) && 0 < cfg.total && Uniform(cfg, b) && 0 < depth
    requires Covers(cfg, round) && (Roomy(cfg, b, depth) || StepsAll(cfg, round)) && WiredStutter(cfg, depth, round, s)
    ensures s.flat.barrier.completed
  {
    hide Inv, Seen, Pass, Covers, StepsAll, Roomy, Uniform, WiredStutter, Decide, Tell, Stuck;
    if !s.flat.barrier.completed {
      ArbiterRests(cfg, depth, round, s);
      UnitNumber(cfg, s);
      if s.telling.Telling? {
        TellFalls(cfg, b, depth, s);
        if Roomy(cfg, b, depth) {
          NeverFull(cfg, b, depth, s);
        } else {
          FullIsRead(cfg, depth, s, round);
        }
      } else {
        SeenAll(s);
        DecideFalls(cfg, b, s.flat);
        RestIsStuck(cfg, b, depth, round, s);
        NoDeadlock(cfg, b, s.flat);
      }
    }
  }

  lemma ArbiterRests(cfg: Config, depth: nat, round: seq<Process>, s: Wired)
    requires Covers(cfg, round) && WiredStutter(cfg, depth, round, s)
    ensures ArbiterStep(cfg, depth, s) == s
  {
    hide ArbiterStep;
    assert ARBITER in round;
    assert WiredPass(cfg, depth, ARBITER, s) == s;
  }

  lemma RestIsStuck(cfg: Config, b: nat, depth: nat, round: seq<Process>, s: Wired)
    requires cfg.Valid() && !cfg.Faulty() && Inv(cfg, s.flat) && WiredInv(cfg, s) && Covers(cfg, round)
    requires WiredStutter(cfg, depth, round, s) && BarrierIdle(s.flat)
    ensures Stuck(cfg, s.flat)
  {
    hide Inv, Seen, Pass, BarrierIdle, SchedulerIdle, PipelineIdle, LoaderIdle;
    assert LoaderIdle(cfg, s.flat) by { DoneLoader(cfg, depth, round, s); }
    UnitCount(cfg, s.flat);
    forall c | 0 <= c < |s.flat.units| && c < cfg.total ensures SchedulerIdle(cfg, s.flat.units[c]) && PipelineIdle(s.flat.units[c]) {
      assert SCHEDULER(c) in round && HasPipeline(round, c);
      var i :| 0 <= i < |round| && round[i].PIPELINE? && round[i].c == c;
      OwnStutters(cfg, depth, SCHEDULER(c), s);
      OwnStutters(cfg, depth, round[i], s);
      StutterUnit(cfg, s.flat, c, round[i].result);
    }
  }

  lemma DoneLoader(cfg: Config, depth: nat, round: seq<Process>, s: Wired)
    requires cfg.Valid() && WiredInv(cfg, s) && Covers(cfg, round) && WiredStutter(cfg, depth, round, s)
    ensures LoaderIdle(cfg, s.flat)
  {
    hide WiredInv, Covers, WiredStutter;
    LoaderAtRest(cfg, depth, round, s);
  }

  // ----- Rounds -----

  lemma {:induction false} WiredRoundFalls(cfg: Config, b: nat, depth: nat, round: seq<Process>, s: Wired)
    requires cfg.Valid() && !cfg.Faulty() && WiredInv(cfg, s)
    ensures var t := WiredAfter(cfg, depth, round, s);
            WiredWork(cfg, b, t) < WiredWork(cfg, b, s) || (t == s && WiredStutter(cfg, depth, round, s))
    decreases |round|
  {
    hide WiredInv, WiredPass, WiredWork;
    if round != [] {
      var t := WiredPass(cfg, depth, round[0], s);
      WiredPassKeeps(cfg, depth, round[0], s);
      WiredPassFalls(cfg, b, depth, round[0], s);
      WiredRoundFalls(cfg, b, depth, round[1..], t);
      if t == s && WiredStutter(cfg, depth, round[1..], s) {
        forall i | 0 <= i < |round| ensures WiredPass(cfg, depth, round[i], s) == s {
          if i > 0 {
            assert round[i] == round[1..][i - 1];
          }
        }
      }
    }
  }

  lemma {:induction false} StaysWiredComplete(cfg: Config, depth: nat, passes: seq<Process>, s: Wired)
    requires s.flat.barrier.completed
    ensures WiredAfter(cfg, depth, passes, s).flat.barrier.completed
    decreases |passes|
  {
    hide WiredPass;
    if passes != [] {
      WiredCompleteStays(cfg, depth, passes[0], s);
      StaysWiredComplete(cfg, depth, passes[1..], WiredPass(cfg, depth, passes[0], s));
    }
  }

  lemma WiredCompleteStays(cfg: Config, depth: nat, p: Process, s: Wired)
    requires s.flat.barrier.completed
    ensures WiredPass(cfg, depth, p, s).flat.barrier.completed
  {
    hide Pass, KernelComplete;
    if !p.ARBITER? {
      CompleteStays(cfg, p, s.flat);
    }
  }

  function WiredRounds(cfg: Config, depth: nat, rounds: seq<seq<Process>>, s: Wired): Wired
    decreases |rounds|
  {
    if rounds == [] then s else WiredRounds(cfg, depth, rounds[1..], WiredAfter(cfg, depth, rounds[0], s))
  }

  /** Every round is fair: to the units with warps if the streams are roomy, to all units if not. */
  predicate Fair(cfg: Config, b: nat, depth: nat, rounds: seq<seq<Process>>) {
    forall i :: 0 <= i < |rounds| ==> Covers(cfg, rounds[i]) && (Roomy(cfg, b, depth) || StepsAll(cfg, rounds[i]))
  }

  lemma WiredWorkNatural(cfg: Config, b: nat, s: Wired)
    requires cfg.Valid() && !cfg.Faulty() && WiredInv(cfg, s) && 0 < cfg.total && Uniform(cfg, b)
    ensures WiredWork(cfg, b, s) >= 0
  {
    hide Work, Seen, Inv, Uniform;
    WorkNatural(cfg, b, Seen(s));
    assert Work(cfg, b, Seen(s)) * (cfg.n + 2) >= 0;
  }

  lemma {:induction false} WiredRoundsComplete(cfg: Config, b: nat, depth: nat, rounds: seq<seq<Process>>, s: Wired)
    requires cfg.Valid() && !cfg.Faulty() && WiredInv(cfg, s) && 0 < cfg.total && Uniform(cfg, b) && 0 < depth
    requires Fair(cfg, b, depth, rounds) && (|rounds| > WiredWork(cfg, b, s) || s.flat.barrier.completed)
    ensures WiredRounds(cfg, depth, rounds, s).flat.barrier.completed
    decreases |rounds|
  {
    hide WiredInv, Covers, StepsAll, Roomy, WiredWork, WiredAfter, Uniform, WiredStutter;
    WiredWorkNatural(cfg, b, s);
    if rounds != [] {
      var round := rounds[0];
      if s.flat.barrier.completed {
        StaysWiredComplete(cfg, depth, round, s);
      } else {
        WiredRoundFalls(cfg, b, depth, round, s);
        if WiredStutter(cfg, depth, round, s) {
          WiredNoDeadlock(cfg, b, depth, round, s);
        }
      }
      AlwaysWiredInv(cfg, depth, round, s);
      WiredRoundsComplete(cfg, b, depth, rounds[1..], WiredAfter(cfg, depth, round, s));
    }
  }

  function WiredBound(cfg: Config, b: nat): nat { Bound(cfg, b) * (cfg.n + 2) }

  lemma InitialWiredWork(cfg: Config, b: nat, s: Wired)
    requires cfg.Valid() && InitialWired(cfg, s)
    ensures WiredWork(cfg, b, s) < WiredBound(cfg, b)
  {
    hide InitialSystem, Work, Bound, Seen;
    SeenAll(s);
    InitialWork(cfg, b, s.flat);
    var x, y := Work(cfg, b, s.flat), Bound(cfg, b);
    assert x * (cfg.n + 2) <= (y - 1) * (cfg.n + 2) == y * (cfg.n + 2) - (cfg.n + 2);
  }

  /** Liveness at the declared depth: a launch that fits and whose warps all meet b
      barriers completes under any schedule that steps every unit; and under any that
      steps the units with warps, if the streams hold b signals or every unit has warps. */
  lemma WiredLaunchCompletes(cfg: Config, b: nat, depth: nat, rounds: seq<seq<Process>>, s: Wired)
    requires cfg.Valid() && InitialWired(cfg, s) && 0 < cfg.total <= cfg.n * cfg.m && Uniform(cfg, b) && 0 < depth
    requires Fair(cfg, b, depth, rounds) && |rounds| >= WiredBound(cfg, b)
    ensures WiredRounds(cfg, depth, rounds, s).flat.barrier.completed
  {
    hide InitialWired, WiredWork, WiredBound, Fair, Uniform;
    InitialWiredInv(cfg, s);
    InitialWiredWork(cfg, b, s);
    WiredRoundsComplete(cfg, b, depth, rounds, s);
  }

  /** Hardware launches at the declared depth. */
  lemma WiredHardwareCompletes(cfg: Config, depth: nat, rounds: seq<seq<Process>>, s: Wired)
    requires cfg.Valid() && StraightLine(cfg) && InitialWired(cfg, s) && 0 < cfg.total <= cfg.n * cfg.m && 0 < depth
    requires Fair(cfg, BarriersFrom(Words(cfg), 0), depth, rounds) && |rounds| >= WiredBound(cfg, BarriersFrom(Words(cfg), 0))
    ensures WiredRounds(cfg, depth, rounds, s).flat.barrier.completed
  {
    hide StraightLine, InitialWired, WiredBound, Fair, Uniform;
    HardwareIsUniform(cfg);
    WiredLaunchCompletes(cfg, BarriersFrom(Words(cfg), 0), depth, rounds, s);
  }

  // ----- When a unit without warps never steps -----

  predicate StreamsFit(depth: nat, s: Wired) {
    forall c :: 0 <= c < |s.flat.units| ==> |s.flat.units[c].signals| <= depth
  }

  /** A stream never holds more than its depth. */
  lemma {:induction false} AlwaysFit(cfg: Config, depth: nat, passes: seq<Process>, s: Wired)
    requires StreamsFit(depth, s)
    ensures StreamsFit(depth, WiredAfter(cfg, depth, passes, s))
    decreases |passes|
  {
    hide WiredPass, StreamsFit;
    if passes != [] {
      PassFits(cfg, depth, passes[0], s);
      AlwaysFit(cfg, depth, passes[1..], WiredPass(cfg, depth, passes[0], s));
    }
  }

  lemma PassFits(cfg: Config, depth: nat, p: Process, s: Wired)
    requires StreamsFit(depth, s)
    ensures StreamsFit(depth, WiredPass(cfg, depth, p, s))
  {
    hide SchedulerPass, PipelinePass, LoaderPass, BarrierPass, Decide, Tell;
    match p {
      case ARBITER =>
        if s.telling.Nobody? {
          DecideSignals(cfg, s.flat);
        } else {
          TellFits(depth, s.flat, s.telling.sig, s.telling.next);
        }
      case LOADER => LoaderSignals(cfg, s.flat);
      case SCHEDULER(c) => if c < |s.flat.units| { SchedulerSignals(cfg, c, s.flat.units[c]); }
      case PIPELINE(c, result) => if c < |s.flat.units| { PipelineSignals(cfg, s.flat.units[c], result); }
    }
  }

  lemma DecideSignals(cfg: Config, s: System)
    ensures var t := Decide(cfg, s).flat; |t.units| == |s.units| && forall c :: 0 <= c < |s.units| ==> t.units[c].signals == s.units[c].signals
  {
    hide Total;
  }

  lemma TellFits(depth: nat, s: System, sig: Signal, c: nat)
    requires StreamsFit(depth, Wired(s, Nobody))
    ensures StreamsFit(depth, Tell(depth, s, sig, c))
  {
  }

  lemma LoaderSignals(cfg: Config, s: System)
    ensures var t := LoaderPass(cfg, s); |t.units| == |s.units| && forall c :: 0 <= c < |s.units| ==> t.units[c].signals == s.units[c].signals
  {
    hide Initial;
  }

  lemma SchedulerSignals(cfg: Config, c: nat, u: Unit)
    ensures |SchedulerPass(cfg, c, u).signals| <= |u.signals|
  {
    hide NextReady, RecordResult, ReleaseSlots, LaunchSlots, Dispatched, BuildDispatch;
  }

  lemma PipelineSignals(cfg: Config, u: Unit, result: seq<Word>)
    ensures PipelinePass(cfg, u, result).signals == u.signals
  {
    hide Execute;
  }

  lemma {:induction false} NeverStartedWired(cfg: Config, depth: nat, passes: seq<Process>, s: Wired, c: nat)
    requires c < |s.flat.units| && Unscheduled(passes, c)
    ensures var t := WiredAfter(cfg, depth, passes, s).flat; c < |t.units| && t.units[c].launched == s.flat.units[c].launched
    decreases |passes|
  {
    hide WiredPass;
    if passes != [] {
      NotStartedWired(cfg, depth, passes[0], s, c);
      assert forall i :: 0 <= i < |passes[1..]| ==> passes[1..][i] == passes[i + 1];
      NeverStartedWired(cfg, depth, passes[1..], WiredPass(cfg, depth, passes[0], s), c);
    }
  }

  lemma NotStartedWired(cfg: Config, depth: nat, p: Process, s: Wired, c: nat)
    requires c < |s.flat.units| && p != SCHEDULER(c)
    ensures var t := WiredPass(cfg, depth, p, s).flat; c < |t.units| && t.units[c].launched == s.flat.units[c].launched
  {
    hide Pass, Total;
    if !p.ARBITER? {
      NotStarted(cfg, p, s.flat, c);
    }
  }

  /** If a unit without warps never steps, completion takes streams that hold a signal per barrier. */
  lemma IdleUnitBlocks(cfg: Config, b: nat, depth: nat, passes: seq<Process>, s: Wired, c: nat)
    requires cfg.Valid() && InitialWired(cfg, s) && Uniform(cfg, b) && cfg.total <= c < cfg.n && Unscheduled(passes, c)
    requires WiredAfter(cfg, depth, passes, s).flat.barrier.completed
    ensures b <= depth
  {
    hide Inv, Uniform, WiredAfter, Seen, InitialSystem;
    var t := WiredAfter(cfg, depth, passes, s);
    InitialWiredInv(cfg, s);
    AlwaysWiredInv(cfg, depth, passes, s);
    AtStart(cfg, depth, s, c);
    AlwaysFit(cfg, depth, passes, s);
    NeverStartedWired(cfg, depth, passes, s, c);
    assert ReachableWired(cfg, depth, t);
    WiredDoneMeansUniform(cfg, depth, t);
    SameCount(cfg, b, t.flat.barrier.releases);
    SeenParts(t);
    SeenUnit(t, c);
    Waiting(cfg, Seen(t), c);
  }

  lemma AtStart(cfg: Config, depth: nat, s: Wired, c: nat)
    requires InitialWired(cfg, s) && c < cfg.n
    ensures c < |s.flat.units| && !s.flat.units[c].launched && StreamsFit(depth, s)
  {
  }

  lemma {:induction false} WiredAfterBoth(cfg: Config, depth: nat, a: seq<Process>, b: seq<Process>, s: Wired)
    ensures WiredAfter(cfg, depth, a + b, s) == WiredAfter(cfg, depth, b, WiredAfter(cfg, depth, a, s))
    decreases |a|
  {
    hide WiredPass;
    if a == [] {
      assert a + b == b;
    } else {
      assert (a + b)[1..] == a[1..] + b;
      WiredAfterBoth(cfg, depth, a[1..], b, WiredPass(cfg, depth, a[0], s));
    }
  }

  lemma {:induction false} WiredRoundsArePasses(cfg: Config, depth: nat, rounds: seq<seq<Process>>, s: Wired)
    ensures WiredRounds(cfg, depth, rounds, s) == WiredAfter(cfg, depth, Flat(rounds), s)
    decreases |rounds|
  {
    hide WiredPass;
    if rounds != [] {
      WiredAfterBoth(cfg, depth, rounds[0], Flat(rounds[1..]), s);
      WiredRoundsArePasses(cfg, depth, rounds[1..], WiredAfter(cfg, depth, rounds[0], s));
    }
  }

  predicate AllCover(cfg: Config, rounds: seq<seq<Process>>) {
    forall i :: 0 <= i < |rounds| ==> Covers(cfg, rounds[i])
  }

  /** Stepping only the units with warps reaches `done` on every schedule, if and only
      if every unit has warps or the streams hold a signal per barrier. */
  lemma WiredCompletesIff(cfg: Config, b: nat, depth: nat)
    requires cfg.Valid() && 0 < cfg.total <= cfg.n * cfg.m && Uniform(cfg, b) && 0 < depth
    ensures (forall rounds, s :: InitialWired(cfg, s) && AllCover(cfg, rounds) && |rounds| >= WiredBound(cfg, b)
               ==> WiredRounds(cfg, depth, rounds, s).flat.barrier.completed)
            <==> cfg.total >= cfg.n || b <= depth
  {
    hide InitialSystem, WiredBound, Covers, Uniform, WiredRounds, Round;
    if cfg.total >= cfg.n || b <= depth {
      forall rounds, s | InitialWired(cfg, s) && AllCover(cfg, rounds) && |rounds| >= WiredBound(cfg, b)
        ensures WiredRounds(cfg, depth, rounds, s).flat.barrier.completed
      {
        WiredLaunchCompletes(cfg, b, depth, rounds, s);
      }
    } else {
      var rounds, s, c := seq(WiredBound(cfg, b), _ => Round(cfg)), Wired(Start(cfg), Nobody), cfg.total;
      StartIsInitial(cfg);
      RoundCovers(cfg);
      assert Unscheduled(Round(cfg), c) by { OnlyManned(cfg, c); }
      FlatUnscheduled(Round(cfg), WiredBound(cfg, b), c);
      WiredRoundsArePasses(cfg, depth, rounds, s);
      if WiredRounds(cfg, depth, rounds, s).flat.barrier.completed {
        IdleUnitBlocks(cfg, b, depth, Flat(rounds), s, c);
      }
      assert InitialWired(cfg, s) && AllCover(cfg, rounds) && |rounds| >= WiredBound(cfg, b);
    }
  }

  lemma OnlyManned(cfg: Config, c: nat)
    requires cfg.total <= c
    ensures Unscheduled(Round(cfg), c)
  {
  }

  /** One turn for everyone who may have work, and for the schedulers of all units. */
  function FullRound(cfg: Config): seq<Process> {
    Round(cfg) + seq(cfg.n, c requires 0 <= c < cfg.n => SCHEDULER(c))
  }

  lemma FullRoundSteps(cfg: Config)
    ensures Covers(cfg, FullRound(cfg)) && StepsAll(cfg, FullRound(cfg))
  {
    hide Round;
    var r, all := Round(cfg), FullRound(cfg);
    RoundCovers(cfg);
    assert forall p :: p in r ==> p in all;
    forall c | 0 <= c < cfg.n ensures SCHEDULER(c) in all {
      assert all[|r| + c] == SCHEDULER(c);
    }
    forall c | 0 <= c < cfg.n && c < cfg.total ensures HasPipeline(all, c) {
      assert HasPipeline(r, c);
      var i :| 0 <= i < |r| && r[i].PIPELINE? && r[i].c == c;
      assert all[i] == r[i];
    }
  }

  /** At any depth, `done` can be reached by exactly the launches that fit, are not
      empty, and whose warps meet equally many barriers. */
  lemma WiredPossibleIff(cfg: Config, depth: nat)
    requires cfg.Valid() && 0 < depth
    ensures (exists s :: ReachableWired(cfg, depth, s) && s.flat.barrier.completed)
            <==> 0 < cfg.total <= cfg.n * cfg.m && exists b: nat :: Uniform(cfg, b)
  {
    hide ReachableWired, Uniform, FullRound, WiredBound, Covers, StepsAll;
    if s :| ReachableWired(cfg, depth, s) && s.flat.barrier.completed {
      WiredDoneMeansUniform(cfg, depth, s);
    }
    if 0 < cfg.total <= cfg.n * cfg.m && exists b: nat :: Uniform(cfg, b) {
      var b: nat :| Uniform(cfg, b);
      var rounds, s := seq(WiredBound(cfg, b), _ => FullRound(cfg)), Wired(Start(cfg), Nobody);
      StartIsInitial(cfg);
      FullRoundSteps(cfg);
      WiredLaunchCompletes(cfg, b, depth, rounds, s);
      WiredRoundsArePasses(cfg, depth, rounds, s);
      assert ReachableWired(cfg, depth, WiredAfter(cfg, depth, Flat(rounds), s)) by { Reached(cfg, depth, Flat(rounds), s); }
    }
  }

  lemma Reached(cfg: Config, depth: nat, passes: seq<Process>, s: Wired)
    requires InitialWired(cfg, s)
    ensures ReachableWired(cfg, depth, WiredAfter(cfg, depth, passes, s))
  {
    hide InitialWired, WiredAfter;
  }

  // ----- The whole pass, where nothing blocks -----

  predicate Room(depth: nat, s: System, c: nat) {
    forall k :: c <= k < |s.units| ==> |s.units[k].signals| < depth
  }

  /** With room in every stream, the writes of a broadcast follow one another to its end. */
  lemma {:induction false} WritesThrough(cfg: Config, depth: nat, s: System, sig: Signal, c: nat)
    requires c <= |s.units| && Room(depth, s, c)
    ensures WiredAfter(cfg, depth, seq(|s.units| - c, _ => ARBITER), Wired(s, Telling(sig, c)))
            == Wired(Seen(Wired(s, Telling(sig, c))), Telling(sig, |s.units|))
    decreases |s.units| - c
  {
    hide Seen, Total, Decide;
    var left := seq(|s.units| - c, _ => ARBITER);
    if c == |s.units| {
      SeenAll(Wired(s, Telling(sig, c)));
    } else {
      WriteSeen(depth, s, sig, c);
      var t := Tell(depth, s, sig, c);
      assert left[1..] == seq(|s.units| - (c + 1), _ => ARBITER);
      WritesThrough(cfg, depth, t.flat, sig, c + 1);
    }
  }

  /** Then the steps of one pass do together what the whole pass does. */
  lemma WholePass(cfg: Config, depth: nat, s: System)
    requires cfg.Valid() && Inv(cfg, s) && Room(depth, s, 0)
    ensures var d := Decide(cfg, s);
            if d.telling.Nobody? then d.flat == BarrierPass(cfg, s)
            else WiredAfter(cfg, depth, seq(|s.units| + 1, _ => ARBITER), d) == Wired(BarrierPass(cfg, s), Nobody)
  {
    hide Inv, WiredAfter, Seen, Poll, ReleaseStep, CompleteStep, Room;
    if s.barrier.busy && !s.barrier.completed {
      var p := Poll(s);
      var d := AnnounceRelease(p);
      SeenRelease(p);
      SeenDone(p);
      PolledRoom(depth, s);
      OneAtATime(cfg, s);
      if d.telling.Telling? {
        BroadcastWhole(cfg, depth, d);
      } else {
        SeenAll(d);
      }
    }
  }

  lemma PolledRoom(depth: nat, s: System)
    requires Room(depth, s, 0)
    ensures var d := AnnounceRelease(Poll(s));
            |d.flat.units| == |s.units| && Room(depth, d.flat, 0) && (d.telling.Telling? ==> d.telling.next == 0)
  {
    hide Total;
  }

  /** What a release leaves is not complete, and what is complete needs no release. */
  lemma OneAtATime(cfg: Config, s: System)
    requires cfg.Valid() && Inv(cfg, s) && s.barrier.busy
    ensures var p := Poll(s);
            if ReleaseReady(p.barrier) then CompleteStep(ReleaseStep(p)) == ReleaseStep(p) && !KernelComplete(ReleaseStep(p).barrier)
            else ReleaseStep(p) == p
    ensures var d := AnnounceRelease(Poll(s)); d.telling.Telling? && d.telling.sig.release ==> !KernelComplete(d.flat.barrier)
  {
    hide SeenStalls, Launch.SeenDone, UnitsInv, Loads, Poll, Broadcast, HeadStalled, HeadCompleted;
    var p := Poll(s);
    PolledBarrier(s);
    if cfg.total > 0 && ReleaseReady(p.barrier) {
      PollKept(cfg, s);
      NeverBoth(cfg, s.barrier.releases, false, p.units);
    }
  }

  lemma BroadcastWhole(cfg: Config, depth: nat, d: Wired)
    requires d.telling.Telling? && d.telling.next == 0 && Room(depth, d.flat, 0)
    requires d.telling.sig.release ==> !KernelComplete(d.flat.barrier)
    ensures WiredAfter(cfg, depth, seq(|d.flat.units| + 1, _ => ARBITER), d) == Wired(Seen(d), Nobody)
  {
    hide WiredAfter, Seen, Room;
    var n := |d.flat.units|;
    WritesThrough(cfg, depth, d.flat, d.telling.sig, 0);
    var writes := seq(n - 0, _ => ARBITER);
    assert seq(n + 1, _ => ARBITER) == writes + [ARBITER];
    WiredAfterBoth(cfg, depth, writes, [ARBITER], d);
    SeenParts(d);
    LastStep(cfg, depth, Wired(Seen(d), Telling(d.telling.sig, n)));
  }

  lemma LastStep(cfg: Config, depth: nat, s: Wired)
    requires s.telling.Telling? && s.telling.next == |s.flat.units| && (s.telling.sig.release ==> !KernelComplete(s.flat.barrier))
    ensures WiredAfter(cfg, depth, [ARBITER], s) == Wired(s.flat, Nobody)
  {
    assert WiredAfter(cfg, depth, [], WiredPass(cfg, depth, ARBITER, s)) == WiredPass(cfg, depth, ARBITER, s);
  }
}

// Every fairly scheduled launch completes, if all its warps meet equally many
// barriers and no signal stream fills up; what that says of the hardware's own
// warps; and when signal streams fill up.

module Liveness {
  import opened Isa
  import opened Codec
  import opened Warp
  import opened Slots
  import opened Sums
  import opened Protocol
  import opened Loading
  import opened Launch
  import opened Safety

  // ----- Work that is left -----

  function RunTotal(runs: seq<nat>): int { if runs == [] then 0 else runs[0] + RunTotal(runs[1..]) }

  /** What is in a unit's streams, against the dispatches already executed. */
  function UnitWork(u: Unit): int {
    |u.seeds| + u.tokens + (if u.busy then 0 else 1) + 3 * |u.statuses| + |u.events| + |u.signals| - 4 * RunTotal(u.runs)
  }

  function Positions(cfg: Config, l: Loader): int { ((cfg.n - l.c) * cfg.m - l.slot) * WORDS_PER_WARP - l.i }

  function LoaderWork(cfg: Config, l: Loader): int {
    if l.regsDone then 0
    else 1 + Positions(cfg, l) + if l.loaded then 0 else 1 + MAX_PROGRAM_LEN - l.loadIdx
  }

  function BarrierWork(cfg: Config, b: nat, br: Barrier): int {
    (if br.busy || br.completed then 0 else 1) + (b - br.releases) * (cfg.n + 1) + if br.completed then 0 else cfg.n + 1
  }

  function AllRuns(cfg: Config, b: nat): int { cfg.m * (b + 1) * 4 }

  /** Falls with every pass that does anything. */
  function Work(cfg: Config, b: nat, s: System): int {
    3 * LoaderWork(cfg, s.loader) + BarrierWork(cfg, b, s.barrier) + Total(s.units, UnitWork) + cfg.n * AllRuns(cfg, b)
  }

  predicate Less(u: Unit, v: Unit) { v == u || UnitWork(v) < UnitWork(u) }

  lemma DispatchLess(u: Unit)
    ensures Less(u, DispatchStep(u)) && (DispatchStep(u) == u ==> u.busy || NextReady(u.slots) == |u.slots|)
  {
    hide NextReady;
  }

  lemma StatusLess(u: Unit)
    ensures Less(u, StatusStep(u)) && (StatusStep(u) == u ==> u.statuses == [])
  {
    hide RecordResult;
    if u.statuses != [] {
      assert |StatusStep(u).statuses| < |u.statuses|;
    }
  }

  lemma SignalLess(u: Unit)
    ensures Less(u, SignalStep(u)) && (SignalStep(u) == u ==> u.signals == [])
  {
    hide ReleaseSlots;
    if u.signals != [] {
      assert |SignalStep(u).signals| < |u.signals|;
    }
  }

  lemma LaunchLess(cfg: Config, c: nat, u: Unit)
    requires !u.busy
    ensures Less(u, LaunchStep(cfg, c, u)) && (LaunchStep(cfg, c, u) == u ==> cfg.Faulty() || u.tokens == 0)
  {
    hide LaunchSlots;
  }

  /** A scheduler that does nothing has nothing to do. */
  predicate SchedulerIdle(cfg: Config, u: Unit) {
    if u.running then (u.busy || NextReady(u.slots) == |u.slots|) && u.statuses == [] && u.signals == []
    else cfg.Faulty() || u.tokens == 0
  }

  lemma SchedulerLess(cfg: Config, c: nat, u: Unit)
    requires !u.running ==> !u.busy || u.tokens == 0
    ensures Less(u, SchedulerPass(cfg, c, u))
    ensures SchedulerPass(cfg, c, u) == u ==> SchedulerIdle(cfg, u)
  {
    hide DispatchStep, StatusStep, SignalStep, LaunchStep, UnitWork, NextReady;
    if u.running {
      var v := DispatchStep(u);
      var w := StatusStep(v);
      DispatchLess(u);
      StatusLess(v);
      SignalLess(w);
    } else if u.tokens == 0 {
      NoLaunch(cfg, c, u);
    } else {
      LaunchLess(cfg, c, u);
    }
  }

  lemma {:induction false} OneMoreRun(runs: seq<nat>, j: nat)
    requires j < |runs|
    ensures RunTotal(runs[j := runs[j] + 1]) == RunTotal(runs) + 1
  {
    if j > 0 {
      assert runs[j := runs[j] + 1][1..] == runs[1..][j - 1 := runs[1..][j - 1] + 1];
      OneMoreRun(runs[1..], j - 1);
    } else {
      assert runs[0 := runs[0] + 1][1..] == runs[1..];
    }
  }

  predicate PipelineIdle(u: Unit) { u.seeds == [] && u.dispatches == [] }

  lemma PipelineLess(cfg: Config, u: Unit, result: seq<Word>)
    requires u.dispatches != [] ==> u.dispatches[0].slot < |u.runs|
    ensures Less(u, PipelinePass(cfg, u, result)) && (PipelinePass(cfg, u, result) == u ==> PipelineIdle(u))
  {
    hide Execute;
    var v := PipelinePass(cfg, u, result);
    if u.seeds != [] {
      assert |v.seeds| < |u.seeds|;
    } else if u.dispatches != [] {
      OneMoreRun(u.runs, u.dispatches[0].slot);
      assert |v.dispatches| < |u.dispatches|;
    }
  }

  // ----- One pass -----

  predicate Falls(cfg: Config, b: nat, s: System, t: System) {
    t == s || Work(cfg, b, t) < Work(cfg, b, s)
  }

  lemma UnitFalls(cfg: Config, b: nat, s: System, c: nat, v: Unit)
    requires c < |s.units| && Less(s.units[c], v)
    ensures Falls(cfg, b, s, s.(units := s.units[c := v]))
  {
    hide UnitWork, LoaderWork, BarrierWork;
    if v == s.units[c] {
      assert s.units[c := v] == s.units;
    } else {
      TotalUpdate(s.units, c, v, UnitWork);
    }
  }

  lemma SchedulerFalls(cfg: Config, b: nat, s: System, c: nat)
    requires cfg.Valid() && Inv(cfg, s) && c < cfg.n
    ensures Falls(cfg, b, s, Pass(cfg, SCHEDULER(c), s))
  {
    hide SchedulerPass, Falls, UnitWork, LoaderOk, BarrierOk, SlotsOk, SignalsOk, StoreOk, SeedsOk, RegsOk;
    var u := s.units[c];
    NotRunning(cfg, s, c);
    SchedulerLess(cfg, c, u);
    UnitFalls(cfg, b, s, c, SchedulerPass(cfg, c, u));
  }

  lemma NotRunning(cfg: Config, s: System, c: nat)
    requires Inv(cfg, s) && c < cfg.n
    ensures var u := s.units[c]; !u.running ==> !u.busy || u.tokens == 0
  {
    hide LoaderOk, BarrierOk, SlotsOk, SignalsOk, StoreOk, SeedsOk, RegsOk;
    assert UnitInv(cfg, c, s.barrier.releases, s.barrier.completed, s.units[c]);
    assert UnitLoad(cfg, s.loader, c, s.units[c]);
  }

  lemma PipelineFalls(cfg: Config, b: nat, s: System, c: nat, result: seq<Word>)
    requires cfg.Valid() && Inv(cfg, s) && c < cfg.n
    ensures Falls(cfg, b, s, Pass(cfg, PIPELINE(c, result), s))
  {
    hide PipelinePass, Falls, UnitWork, LoaderOk, BarrierOk, SlotsOk, SignalsOk, StoreOk, SeedsOk, RegsOk;
    var u := s.units[c];
    assert UnitInv(cfg, c, s.barrier.releases, s.barrier.completed, u);
    PipelineLess(cfg, u, result);
    UnitFalls(cfg, b, s, c, PipelinePass(cfg, u, result));
  }

  lemma ProgramFalls(cfg: Config, b: nat, s: System)
    requires cfg.Valid() && LoaderOk(cfg, s.loader) && !s.loader.loaded
    ensures Falls(cfg, b, s, ProgramStep(cfg, s))
  {
    hide UnitWork, BarrierWork, AllRuns, StoreWord, Positions;
    var l, t := s.loader, ProgramStep(cfg, s);
    if l.loadIdx < MAX_PROGRAM_LEN {
      forall c | 0 <= c < |s.units| ensures UnitWork(t.units[c]) == UnitWork(s.units[c]) {
        StoreWorkless(cfg, l.loadIdx, s.units[c]);
      }
      TotalSame(s.units, t.units, UnitWork, UnitWork);
      assert Positions(cfg, t.loader) == Positions(cfg, l) by { SamePosition(cfg, l, t.loader); }
    } else {
      SamePosition(cfg, l, t.loader);
    }
  }

  lemma SamePosition(cfg: Config, k: Loader, l: Loader)
    requires k.c == l.c && k.slot == l.slot && k.i == l.i
    ensures Positions(cfg, k) == Positions(cfg, l)
  {
  }

  lemma AdvancePosition(cfg: Config, l: Loader)
    requires LoaderOk(cfg, l) && l.c < cfg.n
    ensures Positions(cfg, Advance(cfg, l)) == Positions(cfg, l) - 1
  {
    var left := cfg.n - l.c;
    assert (left - 1) * cfg.m == left * cfg.m - cfg.m;
  }

  lemma SendFalls(cfg: Config, b: nat, s: System)
    requires cfg.Valid() && LoaderOk(cfg, s.loader) && s.loader.loaded && !s.loader.regsDone && |s.units| == cfg.n
    ensures Falls(cfg, b, s, RegisterStep(cfg, s))
  {
    hide UnitWork, BarrierWork, AllRuns, Blocked, SendSeed, Positions;
    var l := s.loader;
    if l.c == cfg.n {
      hide Advance;
      NoPosition(cfg, l);
    } else if !Blocked(cfg, l, s.units[l.c]) {
      SendAdds(cfg, l, s.units[l.c]);
      TotalUpdate(s.units, l.c, SendSeed(cfg, l, s.units[l.c]), UnitWork);
      AdvancePosition(cfg, l);
    }
  }

  lemma NoPosition(cfg: Config, l: Loader)
    requires LoaderOk(cfg, l) && l.c == cfg.n
    ensures Positions(cfg, l) == 0
  {
  }

  lemma LoaderFalls(cfg: Config, b: nat, s: System)
    requires cfg.Valid() && Inv(cfg, s)
    ensures Falls(cfg, b, s, Pass(cfg, LOADER, s))
  {
    hide Falls, UnitsInv, BarrierOk, UnitLoad, LoaderOk, ProgramStep, RegisterStep;
    if !s.loader.loaded {
      ProgramFalls(cfg, b, s);
    } else if !s.loader.regsDone {
      SendFalls(cfg, b, s);
    } else {
      assert Falls(cfg, b, s, s) by { Stays(cfg, b, s); }
    }
  }

  lemma Stays(cfg: Config, b: nat, s: System)
    ensures Falls(cfg, b, s, s)
  {
  }

  lemma StoreWorkless(cfg: Config, k: nat, u: Unit)
    ensures UnitWork(StoreWord(cfg, k, u)) == UnitWork(u)
  {
    hide RunTotal;
  }

  lemma SendAdds(cfg: Config, l: Loader, u: Unit)
    ensures UnitWork(SendSeed(cfg, l, u)) <= UnitWork(u) + 2
  {
    hide RunTotal, Initial;
  }

  function EventTaken(u: Unit): int { if u.events == [] then 0 else -1 }
  function One(u: Unit): int { 1 }

  lemma {:induction false} CountUnits(units: seq<Unit>)
    ensures Total(units, One) == |units|
  {
    if units != [] {
      CountUnits(units[1..]);
    }
  }

  predicate Quiet(units: seq<Unit>) { forall c :: 0 <= c < |units| ==> units[c].events == [] }

  lemma QuietPoll(s: System)
    requires Quiet(s.units)
    ensures Poll(s) == s
  {
    TotalZero(s.units, HeadStalled);
    TotalZero(s.units, HeadCompleted);
    assert Poll(s).units == s.units;
  }

  lemma TakeEvent(u: Unit)
    ensures UnitWork(Popped(u)) == UnitWork(u) + EventTaken(u)
  {
    hide RunTotal;
  }

  lemma HearSignal(sig: Signal, u: Unit)
    ensures UnitWork(Told(sig, u)) == UnitWork(u) + One(u)
  {
    hide RunTotal;
  }

  lemma PollWork(s: System)
    ensures Total(Poll(s).units, UnitWork) <= Total(s.units, UnitWork)
    ensures Total(Poll(s).units, UnitWork) == Total(s.units, UnitWork) ==> Quiet(s.units)
  {
    hide UnitWork, Popped;
    var t, zeros := Poll(s), seq(|s.units|, _ => 0);
    forall c | 0 <= c < |s.units| ensures UnitWork(t.units[c]) == UnitWork(s.units[c]) + EventTaken(s.units[c]) {
      TakeEvent(s.units[c]);
    }
    TotalGains(s.units, t.units, UnitWork, EventTaken);
    TotalZero(zeros, Itself);
    TotalWithin(s.units, zeros, EventTaken, Itself);
    if Total(s.units, EventTaken) == 0 {
      TotalTight(s.units, zeros, EventTaken, Itself);
    }
  }

  lemma BroadcastWork(sig: Signal, units: seq<Unit>)
    ensures Total(Broadcast(sig, units), UnitWork) == Total(units, UnitWork) + |units|
  {
    hide UnitWork, Told;
    var after := Broadcast(sig, units);
    forall c | 0 <= c < |units| ensures UnitWork(after[c]) == UnitWork(units[c]) + One(units[c]) {
      HearSignal(sig, units[c]);
    }
    TotalGains(units, after, UnitWork, One);
    CountUnits(units);
  }

  lemma ReleaseFalls(cfg: Config, b: nat, s: System)
    requires |s.units| == cfg.n && s.barrier.busy
    ensures Falls(cfg, b, s, ReleaseStep(s)) && (ReleaseStep(s) == s ==> !ReleaseReady(s.barrier))
  {
    hide UnitWork, LoaderWork, AllRuns, Broadcast;
    if ReleaseReady(s.barrier) {
      BroadcastWork(RELEASE, s.units);
      var left := b - s.barrier.releases;
      assert (left - 1) * (cfg.n + 1) == left * (cfg.n + 1) - (cfg.n + 1);
      assert ReleaseStep(s).barrier.releases == s.barrier.releases + 1;
    }
  }

  lemma CompleteFalls(cfg: Config, b: nat, s: System)
    requires |s.units| == cfg.n && s.barrier.busy && !s.barrier.completed
    ensures Falls(cfg, b, s, CompleteStep(s)) && (CompleteStep(s) == s ==> !KernelComplete(s.barrier))
  {
    hide UnitWork, LoaderWork, AllRuns, Broadcast;
    if KernelComplete(s.barrier) {
      BroadcastWork(KERNEL_DONE, s.units);
      assert CompleteStep(s).barrier.completed;
    }
  }

  lemma PollFalls(cfg: Config, b: nat, s: System)
    ensures Falls(cfg, b, s, Poll(s)) && (Poll(s) == s ==> Quiet(s.units))
  {
    hide UnitWork, LoaderWork, AllRuns;
    PollWork(s);
    if Quiet(s.units) {
      QuietPoll(s);
    }
  }

  /** An arbiter that does nothing has nothing to do. */
  predicate BarrierIdle(s: System) {
    s.barrier.completed || (s.barrier.busy && Quiet(s.units) && !ReleaseReady(s.barrier) && !KernelComplete(s.barrier))
  }

  lemma BarrierFalls(cfg: Config, b: nat, s: System)
    requires cfg.Valid() && !cfg.Faulty() && |s.units| == cfg.n && (s.barrier.completed ==> !s.barrier.busy)
    ensures Falls(cfg, b, s, Pass(cfg, ARBITER, s))
    ensures Pass(cfg, ARBITER, s) == s ==> BarrierIdle(s)
  {
    hide Work, Poll, ReleaseStep, CompleteStep, Quiet;
    if s.barrier.completed {
    } else if !s.barrier.busy {
      LaunchFalls(cfg, b, s);
    } else {
      PolledShape(s);
      PollFalls(cfg, b, s);
      ReleaseFalls(cfg, b, Poll(s));
      CompleteFalls(cfg, b, ReleaseStep(Poll(s)));
    }
  }

  lemma PolledShape(s: System)
    requires s.barrier.busy
    ensures |Poll(s).units| == |ReleaseStep(Poll(s)).units| == |s.units|
    ensures Poll(s).barrier.busy && ReleaseStep(Poll(s)).barrier.busy
    ensures ReleaseStep(Poll(s)).barrier.completed == Poll(s).barrier.completed == s.barrier.completed
  {
    hide ReleaseReady, Total;
  }

  lemma LaunchFalls(cfg: Config, b: nat, s: System)
    requires !cfg.Faulty() && !s.barrier.busy && !s.barrier.completed
    ensures Work(cfg, b, s.(barrier := LaunchBarrier(cfg, s.barrier))) < Work(cfg, b, s)
  {
    hide LoaderWork, AllRuns, UnitWork;
  }

  /** Every pass leaves the state alone or brings the launch closer to its end. */
  lemma PassFalls(cfg: Config, b: nat, p: Process, s: System)
    requires cfg.Valid() && !cfg.Faulty() && Inv(cfg, s)
    ensures Falls(cfg, b, s, Pass(cfg, p, s))
  {
    hide Falls, Pass, Loads;
    match p
    case LOADER => LoaderFalls(cfg, b, s);
    case ARBITER => BarrierFalls(cfg, b, s);
    case SCHEDULER(c) => if c < cfg.n { SchedulerFalls(cfg, b, s, c); } else { NoSuchUnit(cfg, b, p, s); }
    case PIPELINE(c, result) => if c < cfg.n { PipelineFalls(cfg, b, s, c, result); } else { NoSuchUnit(cfg, b, p, s); }
  }

  lemma NoSuchUnit(cfg: Config, b: nat, p: Process, s: System)
    requires (p.SCHEDULER? || p.PIPELINE?) && p.c >= |s.units|
    ensures Falls(cfg, b, s, Pass(cfg, p, s))
  {
  }

  // ----- No deadlock -----

  predicate LoaderIdle(cfg: Config, s: System) {
    var l := s.loader;
    l.regsDone || (l.c < |s.units| && Blocked(cfg, l, s.units[l.c]))
  }

  lemma LoaderStutters(cfg: Config, s: System)
    requires LoaderPass(cfg, s) == s && LoaderOk(cfg, s.loader)
    ensures LoaderIdle(cfg, s) && s.loader.loaded
  {
    hide Blocked, StoreWord, SendSeed;
  }

  /** No process has anything to do: only those of units with warps are asked. */
  predicate Stuck(cfg: Config, s: System) {
    && LoaderIdle(cfg, s) && BarrierIdle(s)
    && forall c :: 0 <= c < |s.units| && c < cfg.total ==> SchedulerIdle(cfg, s.units[c]) && PipelineIdle(s.units[c])
  }

  lemma StuckLoader(cfg: Config, s: System)
    requires cfg.Valid() && |s.units| == cfg.n && Stuck(cfg, s)
    ensures s.loader.regsDone
  {
    var l := s.loader;
    if !l.regsDone && l.c >= cfg.total {
      NoWarps(cfg, l.c, l.slot);
    }
  }

  predicate Parked(cfg: Config, c: nat, u: Unit)
    requires |u.slots| == cfg.m
  {
    u.launched && !Pending(u) && u.events == []
    && forall j :: 0 <= j < cfg.m && cfg.Resident(c, j) ==> u.slots[j].state.STALLED? || u.slots[j].state.DONE?
  }

  lemma StuckUnit(cfg: Config, s: System, c: nat)
    requires cfg.Valid() && !cfg.Faulty() && Inv(cfg, s) && Stuck(cfg, s) && !s.barrier.completed && c < cfg.n && c < cfg.total
    ensures Parked(cfg, c, s.units[c])
  {
    hide LoaderOk, StoreOk, SeedsOk, RegsOk, SeenStalls, SeenDone, BarrierOk, Turn, StallsBefore, PcAt, LoaderIdle;
    StuckLoader(cfg, s);
    var u, g := s.units[c], s.barrier.releases;
    assert UnitInv(cfg, c, g, false, u) && UnitLoad(cfg, s.loader, c, u);
    assert SchedulerIdle(cfg, u) && PipelineIdle(u);
    assert u.launched && u.running && !u.busy;
  }

  lemma ParkedSlots(cfg: Config, c: nat, g: nat, b: nat, u: Unit)
    requires UnitInv(cfg, c, g, false, u) && Parked(cfg, c, u) && Uniform(cfg, b) && g <= b
    ensures g < b ==> SeenStalls(u) == Residents(cfg, c)
    ensures g == b ==> SeenDone(u) == Residents(cfg, c)
  {
    hide SignalsOk, Turn, PcAt, FlightOk;
    var row := ResidentRow(cfg, c);
    forall j | 0 <= j < cfg.m
      ensures g < b ==> IsStalled(u.slots[j]) == Itself(row[j])
      ensures g == b ==> IsDone(u.slots[j]) == Itself(row[j])
    {
      if cfg.Resident(c, j) {
        assert StallsBefore(cfg, cfg.Local(c, j), b) && !StallsAt(cfg, cfg.Local(c, j), b);
      }
    }
    if g < b {
      TotalSame(u.slots, row, IsStalled, Itself);
    } else {
      TotalSame(u.slots, row, IsDone, Itself);
    }
  }

  lemma EmptyUnit(cfg: Config, c: nat, g: nat, done: bool, u: Unit)
    requires UnitInv(cfg, c, g, done, u) && u.events == [] && c >= cfg.total
    ensures SeenStalls(u) == SeenDone(u) == Residents(cfg, c) == 0
  {
    Unstalled(cfg, c, g, done, u);
    forall j | 0 <= j < cfg.m ensures !cfg.Resident(c, j) {
      NoWarps(cfg, c, j);
    }
    TotalZero(ResidentRow(cfg, c), Itself);
  }

  /** No warp is released more often than it stalls. */
  lemma FewReleases(cfg: Config, b: nat, s: System)
    requires cfg.Valid() && Inv(cfg, s) && 0 < cfg.total && Uniform(cfg, b)
    ensures s.barrier.releases <= b
  {
    hide Inv, Turn;
    HasWarp(cfg, 0);
    HasShape(cfg, s, 0, 0);
    RunsNearReleases(cfg, s, 0, 0);
    assert cfg.Local(0, 0) == 0;
    assert !StallsAt(cfg, 0, b);
  }

  /** As long as the launch is not complete, some process can move. */
  lemma NoDeadlock(cfg: Config, b: nat, s: System)
    requires cfg.Valid() && !cfg.Faulty() && Inv(cfg, s) && 0 < cfg.total && Uniform(cfg, b) && !s.barrier.completed
    ensures !Stuck(cfg, s)
  {
    hide UnitInv, UnitLoad, LoaderOk, SeenStalls, SeenDone, Uniform, LoaderIdle, SchedulerIdle, PipelineIdle, Parked;
    if Stuck(cfg, s) {
      var g, all := s.barrier.releases, AllResidents(cfg);
      FewReleases(cfg, b, s);
      WarpsPlaced(cfg);
      forall c | 0 <= c < cfg.n
        ensures g < b ==> SeenStalls(s.units[c]) == Itself(all[c])
        ensures g == b ==> SeenDone(s.units[c]) == Itself(all[c])
      {
        var u := s.units[c];
        assert UnitInv(cfg, c, g, false, u);
        if c < cfg.total {
          StuckUnit(cfg, s, c);
          ParkedSlots(cfg, c, g, b, u);
        } else {
          EmptyUnit(cfg, c, g, false, u);
        }
      }
      if g < b {
        TotalSame(s.units, all, SeenStalls, Itself);
      } else {
        TotalSame(s.units, all, SeenDone, Itself);
      }
      assert false;
    }
  }

  // ----- Rounds -----

  /** A round gives a turn to the loader, the arbiter, and the scheduler and
      pipeline of every unit that has warps. */
  predicate Covers(cfg: Config, round: seq<Process>) {
    && LOADER in round && ARBITER in round
    && forall c :: 0 <= c < cfg.n && c < cfg.total ==> SCHEDULER(c) in round && HasPipeline(round, c)
  }

  predicate HasPipeline(round: seq<Process>, c: nat) {
    exists i :: 0 <= i < |round| && round[i].PIPELINE? && round[i].c == c
  }

  predicate AllStutter(cfg: Config, round: seq<Process>, s: System) {
    forall i :: 0 <= i < |round| ==> Pass(cfg, round[i], s) == s
  }

  lemma {:induction false} RoundFalls(cfg: Config, b: nat, round: seq<Process>, s: System)
    requires cfg.Valid() && !cfg.Faulty() && Inv(cfg, s)
    ensures Work(cfg, b, After(cfg, round, s)) < Work(cfg, b, s) || (After(cfg, round, s) == s && AllStutter(cfg, round, s))
    decreases |round|
  {
    hide Inv, Pass, Work;
    if round != [] {
      var t := Pass(cfg, round[0], s);
      PassKeeps(cfg, round[0], s);
      PassFalls(cfg, b, round[0], s);
      RoundFalls(cfg, b, round[1..], t);
      if t == s && AllStutter(cfg, round[1..], s) {
        forall i | 0 <= i < |round| ensures Pass(cfg, round[i], s) == s {
          if i > 0 {
            assert round[i] == round[1..][i - 1];
          }
        }
      }
    }
  }

  lemma StutterStuck(cfg: Config, b: nat, round: seq<Process>, s: System)
    requires cfg.Valid() && !cfg.Faulty() && Inv(cfg, s) && Covers(cfg, round) && AllStutter(cfg, round, s)
    ensures Stuck(cfg, s) || s.barrier.completed
  {
    hide Pass, LoaderPass, BarrierPass, SchedulerPass, PipelinePass, UnitsInv, UnitLoad, SchedulerIdle, PipelineIdle, LoaderIdle, BarrierIdle, Falls;
    assert Pass(cfg, LOADER, s) == s && Pass(cfg, ARBITER, s) == s;
    StutterShared(cfg, b, s);
    forall c | 0 <= c < |s.units| && c < cfg.total ensures SchedulerIdle(cfg, s.units[c]) && PipelineIdle(s.units[c]) {
      assert HasPipeline(round, c);
      var i :| 0 <= i < |round| && round[i].PIPELINE? && round[i].c == c;
      assert Pass(cfg, SCHEDULER(c), s) == s && Pass(cfg, PIPELINE(c, round[i].result), s) == s;
      StutterUnit(cfg, s, c, round[i].result);
    }
  }

  lemma StutterShared(cfg: Config, b: nat, s: System)
    requires cfg.Valid() && !cfg.Faulty() && Inv(cfg, s) && Pass(cfg, LOADER, s) == s && Pass(cfg, ARBITER, s) == s
    ensures LoaderIdle(cfg, s) && BarrierIdle(s)
  {
    hide LoaderPass, BarrierPass, LoaderIdle, BarrierIdle, UnitLoad, UnitInv, LoaderOk;
    LoaderStutters(cfg, s);
    BarrierFalls(cfg, b, s);
  }

  lemma StutterUnit(cfg: Config, s: System, c: nat, result: seq<Word>)
    requires cfg.Valid() && Inv(cfg, s) && c < cfg.n
    requires Pass(cfg, SCHEDULER(c), s) == s && Pass(cfg, PIPELINE(c, result), s) == s
    ensures SchedulerIdle(cfg, s.units[c]) && PipelineIdle(s.units[c])
  {
    hide SchedulerPass, PipelinePass, SchedulerIdle, PipelineIdle, LoaderOk, BarrierOk, SlotsOk, SignalsOk, UnitLoad;
    var u := s.units[c];
    NotRunning(cfg, s, c);
    SchedulerLess(cfg, c, u);
    assert UnitInv(cfg, c, s.barrier.releases, s.barrier.completed, u);
    PipelineLess(cfg, u, result);
    assert s.(units := s.units[c := SchedulerPass(cfg, c, u)]).units[c] == SchedulerPass(cfg, c, u);
    assert s.(units := s.units[c := PipelinePass(cfg, u, result)]).units[c] == PipelinePass(cfg, u, result);
  }

  // ----- The work is never negative -----

  lemma {:induction false} FewRuns(runs: seq<nat>, k: nat)
    requires forall j :: 0 <= j < |runs| ==> runs[j] <= k
    ensures RunTotal(runs) <= |runs| * k
  {
    if runs != [] {
      FewRuns(runs[1..], k);
      assert |runs| * k == |runs[1..]| * k + k;
    }
  }

  lemma FewRunsOf(cfg: Config, b: nat, s: System, c: nat)
    requires cfg.Valid() && Inv(cfg, s) && 0 < cfg.total && Uniform(cfg, b) && c < cfg.n
    ensures UnitWork(s.units[c]) >= -AllRuns(cfg, b)
  {
    hide SeenStalls, SeenDone, LoaderOk, BarrierOk, Turn, SlotOk, SignalsOk, FlightOk, UnitLoad, Uniform;
    FewReleases(cfg, b, s);
    var u := s.units[c];
    assert UnitInv(cfg, c, s.barrier.releases, s.barrier.completed, u);
    forall j | 0 <= j < |u.runs| ensures u.runs[j] <= b + 1 {
      if cfg.Resident(c, j) {
        HasShapeOf(cfg, s, c, j);
        RunsNearReleases(cfg, s, c, j);
      }
    }
    FewRuns(u.runs, b + 1);
  }

  lemma HasShapeOf(cfg: Config, s: System, c: nat, j: nat)
    requires Inv(cfg, s) && c < cfg.n && j < cfg.m && cfg.Resident(c, j)
    ensures HasSlot(cfg, s, c, j)
  {
    hide SlotsOk, FlightOk, SignalsOk, BarrierOk, LoaderOk, SeenStalls, SeenDone;
    HasShape(cfg, s, c, j);
  }

  lemma {:induction false} Floor(units: seq<Unit>, k: int)
    requires forall c :: 0 <= c < |units| ==> UnitWork(units[c]) >= -k
    ensures Total(units, UnitWork) >= -(|units| * k)
  {
    hide UnitWork;
    if units != [] {
      Floor(units[1..], k);
      assert |units| * k == |units[1..]| * k + k;
    }
  }

  lemma LoaderWorkNatural(cfg: Config, l: Loader)
    requires LoaderOk(cfg, l)
    ensures LoaderWork(cfg, l) >= 0
  {
    var left := cfg.n - l.c;
    if left == 0 {
      NoPosition(cfg, l);
    } else {
      assert left * cfg.m == cfg.m + (left - 1) * cfg.m;
      assert (left - 1) * cfg.m >= 0;
    }
  }

  lemma WorkNatural(cfg: Config, b: nat, s: System)
    requires cfg.Valid() && !cfg.Faulty() && Inv(cfg, s) && 0 < cfg.total && Uniform(cfg, b)
    ensures Work(cfg, b, s) >= 0
  {
    hide UnitWork, LoaderWork, AllRuns, LoaderOk, UnitLoad, UnitInv, BarrierOk, Uniform, Counts;
    LoaderWorkNatural(cfg, s.loader);
    FewReleases(cfg, b, s);
    forall c | 0 <= c < |s.units| ensures UnitWork(s.units[c]) >= -AllRuns(cfg, b) {
      FewRunsOf(cfg, b, s, c);
    }
    Floor(s.units, AllRuns(cfg, b));
    assert (b - s.barrier.releases) * (cfg.n + 1) >= 0;
  }

  // ----- Completion -----

  lemma {:induction false} StaysComplete(cfg: Config, passes: seq<Process>, s: System)
    requires s.barrier.completed
    ensures After(cfg, passes, s).barrier.completed
    decreases |passes|
  {
    hide Pass;
    if passes != [] {
      CompleteStays(cfg, passes[0], s);
      StaysComplete(cfg, passes[1..], Pass(cfg, passes[0], s));
    }
  }

  lemma CompleteStays(cfg: Config, p: Process, s: System)
    requires s.barrier.completed
    ensures Pass(cfg, p, s).barrier.completed
  {
    hide SchedulerPass, PipelinePass, StoreWord, SendSeed, Blocked;
  }

  function AfterRounds(cfg: Config, rounds: seq<seq<Process>>, s: System): System
    decreases |rounds|
  {
    if rounds == [] then s else AfterRounds(cfg, rounds[1..], After(cfg, rounds[0], s))
  }

  lemma {:induction false} RoundsComplete(cfg: Config, b: nat, rounds: seq<seq<Process>>, s: System)
    requires cfg.Valid() && !cfg.Faulty() && Inv(cfg, s) && 0 < cfg.total && Uniform(cfg, b)
    requires forall i :: 0 <= i < |rounds| ==> Covers(cfg, rounds[i])
    requires |rounds| > Work(cfg, b, s) || s.barrier.completed
    ensures AfterRounds(cfg, rounds, s).barrier.completed
    decreases |rounds|
  {
    hide Inv, Covers, Work, After, Uniform, AllStutter, Stuck;
    WorkNatural(cfg, b, s);
    if rounds != [] {
      var round := rounds[0];
      assert Covers(cfg, round);
      if s.barrier.completed {
        StaysComplete(cfg, round, s);
      } else {
        RoundFalls(cfg, b, round, s);
        if AllStutter(cfg, round, s) {
          StutterStuck(cfg, b, round, s);
          NoDeadlock(cfg, b, s);
        }
      }
      AlwaysInv(cfg, round, s);
      RoundsComplete(cfg, b, rounds[1..], After(cfg, round, s));
    }
  }

  /** Rounds after which every launch of this size with b barriers is complete. */
  function Bound(cfg: Config, b: nat): nat {
    3 * (2 + MAX_PROGRAM_LEN + cfg.n * cfg.m * WORDS_PER_WARP) + 1 + (b + 1) * (cfg.n + 1) + cfg.n + cfg.n * AllRuns(cfg, b) + 1
  }

  lemma InitialWork(cfg: Config, b: nat, s: System)
    requires cfg.Valid() && InitialSystem(cfg, s)
    ensures Work(cfg, b, s) < Bound(cfg, b)
  {
    hide AllRuns;
    forall c | 0 <= c < |s.units| ensures UnitWork(s.units[c]) == One(s.units[c]) {
      FewRuns(s.units[c].runs, 0);
      NoRuns(s.units[c].runs);
    }
    TotalSame(s.units, s.units, UnitWork, One);
    CountUnits(s.units);
    assert (b + 1) * (cfg.n + 1) == b * (cfg.n + 1) + cfg.n + 1;
  }

  lemma {:induction false} NoRuns(runs: seq<nat>)
    ensures RunTotal(runs) >= 0
  {
    if runs != [] {
      NoRuns(runs[1..]);
    }
  }

  /** Liveness with unbounded signal streams: under any schedule of enough rounds, a
      launch that fits and whose warps all meet b barriers completes. */
  lemma LaunchCompletes(cfg: Config, b: nat, rounds: seq<seq<Process>>, s: System)
    requires cfg.Valid() && InitialSystem(cfg, s) && 0 < cfg.total <= cfg.n * cfg.m && Uniform(cfg, b)
    requires forall i :: 0 <= i < |rounds| ==> Covers(cfg, rounds[i])
    requires |rounds| >= Bound(cfg, b)
    ensures AfterRounds(cfg, rounds, s).barrier.completed
  {
    hide InitialSystem, Work, Bound, Covers, Uniform;
    InitialInv(cfg, s);
    InitialWork(cfg, b, s);
    RoundsComplete(cfg, b, rounds, s);
  }

  // ----- Schedules -----

  function Flat(rounds: seq<seq<Process>>): seq<Process> {
    if rounds == [] then [] else rounds[0] + Flat(rounds[1..])
  }

  lemma {:induction false} AfterBoth(cfg: Config, a: seq<Process>, b: seq<Process>, s: System)
    ensures After(cfg, a + b, s) == After(cfg, b, After(cfg, a, s))
    decreases |a|
  {
    hide Pass;
    if a == [] {
      assert a + b == b;
    } else {
      assert (a + b)[1..] == a[1..] + b;
      AfterBoth(cfg, a[1..], b, Pass(cfg, a[0], s));
    }
  }

  lemma {:induction false} RoundsArePasses(cfg: Config, rounds: seq<seq<Process>>, s: System)
    ensures AfterRounds(cfg, rounds, s) == After(cfg, Flat(rounds), s)
    decreases |rounds|
  {
    hide Pass;
    if rounds != [] {
      AfterBoth(cfg, rounds[0], Flat(rounds[1..]), s);
      RoundsArePasses(cfg, rounds[1..], After(cfg, rounds[0], s));
    }
  }

  function Manned(cfg: Config): nat { if cfg.total < cfg.n then cfg.total else cfg.n }

  /** One turn for everyone who may have work. */
  function Round(cfg: Config): seq<Process> {
    [LOADER, ARBITER] + seq(Manned(cfg), c requires 0 <= c < Manned(cfg) => SCHEDULER(c))
      + seq(Manned(cfg), c requires 0 <= c < Manned(cfg) => PIPELINE(c, []))
  }

  lemma RoundCovers(cfg: Config)
    ensures Covers(cfg, Round(cfg))
  {
    var r, k := Round(cfg), Manned(cfg);
    assert r[0] == LOADER && r[1] == ARBITER;
    forall c | 0 <= c < cfg.n && c < cfg.total ensures SCHEDULER(c) in r && HasPipeline(r, c) {
      assert r[2 + c] == SCHEDULER(c);
      assert r[2 + k + c] == PIPELINE(c, []);
    }
  }

  function StartUnit(cfg: Config): Unit {
    Unit(seq(cfg.m, _ => WarpSlot(0, 0, 0, EMPTY, false)), false, false, seq(cfg.m, _ => seq(WORDS_PER_WARP, _ => 0)),
         seq(MAX_PROGRAM_LEN, _ => 0), [], 0, [], [], [], [], seq(cfg.m, _ => 0), false)
  }

  function Start(cfg: Config): System {
    System(Loader(false, 0, false, 0, 0, 0), Barrier(0, 0, 0, false, false, false, 0), seq(cfg.n, _ => StartUnit(cfg)))
  }

  lemma StartIsInitial(cfg: Config)
    ensures InitialSystem(cfg, Start(cfg))
  {
  }

  function Schedule(cfg: Config, b: nat): seq<seq<Process>> { seq(Bound(cfg, b), _ => Round(cfg)) }

  /** Where the round-robin schedule leads. */
  lemma RoundRobin(cfg: Config, b: nat)
    requires cfg.Valid() && 0 < cfg.total <= cfg.n * cfg.m && Uniform(cfg, b)
    ensures var s := After(cfg, Flat(Schedule(cfg, b)), Start(cfg)); Reachable(cfg, s) && s.barrier.completed
  {
    hide Bound, Covers, Uniform, InitialSystem, Round, After;
    StartIsInitial(cfg);
    RoundCovers(cfg);
    LaunchCompletes(cfg, b, Schedule(cfg, b), Start(cfg));
    RoundsArePasses(cfg, Schedule(cfg, b), Start(cfg));
  }

  /** Completion is possible for exactly the launches that fit, are not empty, and
      whose warps meet equally many barriers. */
  lemma CompletesIff(cfg: Config)
    requires cfg.Valid()
    ensures (exists s :: Reachable(cfg, s) && s.barrier.completed)
            <==> 0 < cfg.total <= cfg.n * cfg.m && exists b: nat :: Uniform(cfg, b)
  {
    hide Reachable, Uniform;
    if s :| Reachable(cfg, s) && s.barrier.completed {
      DoneMeansUniform(cfg, s);
    }
    if 0 < cfg.total <= cfg.n * cfg.m && exists b: nat :: Uniform(cfg, b) {
      var b: nat :| Uniform(cfg, b);
      RoundRobin(cfg, b);
    }
  }

  // ----- Signals to units without warps -----

  predicate Unscheduled(passes: seq<Process>, c: nat) {
    forall i :: 0 <= i < |passes| ==> passes[i] != SCHEDULER(c)
  }

  lemma {:induction false} NeverStarted(cfg: Config, passes: seq<Process>, s: System, c: nat)
    requires c < |s.units| && Unscheduled(passes, c)
    ensures c < |After(cfg, passes, s).units| && After(cfg, passes, s).units[c].launched == s.units[c].launched
    decreases |passes|
  {
    hide Pass;
    if passes != [] {
      NotStarted(cfg, passes[0], s, c);
      assert forall i :: 0 <= i < |passes[1..]| ==> passes[1..][i] == passes[i + 1];
      NeverStarted(cfg, passes[1..], Pass(cfg, passes[0], s), c);
    }
  }

  lemma NotStarted(cfg: Config, p: Process, s: System, c: nat)
    requires c < |s.units| && p != SCHEDULER(c)
    ensures c < |Pass(cfg, p, s).units| && Pass(cfg, p, s).units[c].launched == s.units[c].launched
  {
    hide SchedulerPass, Execute, BarrierPass, LoaderPass;
    match p
    case LOADER => LoaderTouches(cfg, s, c);
    case ARBITER => BarrierTouches(cfg, s, c);
    case SCHEDULER(k) =>
    case PIPELINE(k, result) =>
  }

  lemma {:induction false} FlatUnscheduled(round: seq<Process>, k: nat, c: nat)
    requires Unscheduled(round, c)
    ensures Unscheduled(Flat(seq(k, _ => round)), c)
  {
    var rounds := seq(k, _ => round);
    if k > 0 {
      assert rounds[1..] == seq(k - 1, _ => round);
      FlatUnscheduled(round, k - 1, c);
    }
  }

  lemma SameCount(cfg: Config, a: nat, b: nat)
    requires 0 < cfg.total && Uniform(cfg, a) && Uniform(cfg, b)
    ensures a == b
  {
    hide Turn;
    assert !StallsAt(cfg, 0, a) && !StallsAt(cfg, 0, b) && StallsBefore(cfg, 0, a) && StallsBefore(cfg, 0, b);
  }

  /** A unit without warps whose scheduler is slow finds every signal of the launch waiting. */
  lemma SignalsPileUp(cfg: Config, b: nat, c: nat)
    requires cfg.Valid() && 0 < cfg.total <= c < cfg.n && cfg.total <= cfg.n * cfg.m && Uniform(cfg, b)
    ensures exists s :: Reachable(cfg, s) && c < |s.units| && |s.units[c].signals| == b + 1
  {
    hide Bound, Uniform, Inv, Reachable, After;
    var passes := Flat(Schedule(cfg, b));
    var s := After(cfg, passes, Start(cfg));
    RoundRobin(cfg, b);
    DoneMeansUniform(cfg, s);
    SameCount(cfg, b, s.barrier.releases);
    assert Unscheduled(Round(cfg), c);
    FlatUnscheduled(Round(cfg), Bound(cfg, b), c);
    NeverStarted(cfg, passes, Start(cfg), c);
    ReachableInv(cfg, s);
    Waiting(cfg, s, c);
  }

  lemma Waiting(cfg: Config, s: System, c: nat)
    requires Inv(cfg, s) && c < |s.units| && !s.units[c].launched && s.barrier.completed
    ensures |s.units[c].signals| == s.barrier.releases + 1
  {
    hide Loads, BarrierOk, SeenStalls, SeenDone, SlotsOk, FlightOk;
    assert UnitInv(cfg, c, s.barrier.releases, true, s.units[c]);
  }

  /** Signal streams of depth d never fill up if and only if every unit has a warp
      or the launch has fewer than d barriers. */
  lemma SignalDepthIff(cfg: Config, b: nat, d: nat)
    requires cfg.Valid() && 0 < cfg.total <= cfg.n * cfg.m && Uniform(cfg, b) && 0 < d
    ensures (forall s, c: nat :: Reachable(cfg, s) && c < |s.units| ==> |s.units[c].signals| <= d) <==> cfg.total >= cfg.n || b < d
  {
    hide Uniform, Inv, Reachable;
    if cfg.total >= cfg.n || b < d {
      forall s, c: nat | Reachable(cfg, s) && c < |s.units| ensures |s.units[c].signals| <= d {
        ReachableInv(cfg, s);
        FewReleases(cfg, b, s);
        UnitCount(cfg, s);
        StreamBounds(cfg, s, c);
      }
    } else {
      SignalsPileUp(cfg, b, cfg.total);
    }
  }

  lemma UnitCount(cfg: Config, s: System)
    requires Inv(cfg, s)
    ensures |s.units| == cfg.n
  {
  }

  // ----- The hardware's own warps -----

  /** Barriers a warp meets from `pc`, fetching straight on. */
  function BarriersFrom(words: seq<Word>, pc: nat): nat
    decreases if pc <= |words| then |words| - pc else 0
  {
    StopMovesOn(words, pc);
    if NextStop(words, pc).0.Stalled? then 1 + BarriersFrom(words, NextStop(words, pc).1) else 0
  }

  lemma {:induction false} StopMovesOn(words: seq<Word>, pc: nat)
    ensures NextStop(words, pc).0.Stalled? ==> pc < NextStop(words, pc).1 <= |words|
    decreases |words| - pc
  {
    hide Decode;
    if pc < |words| && !Decode(words[pc]).opcode.HALT? && !Decode(words[pc]).opcode.BARRIER? {
      StopMovesOn(words, pc + 1);
    }
  }

  ghost predicate StraightLine(cfg: Config) {
    forall words, w, pc :: cfg.exec(words, w, pc) == NextStop(words, pc)
  }

  lemma {:induction false} CountsOn(cfg: Config, w: nat, k: nat)
    requires StraightLine(cfg)
    ensures var b := BarriersFrom(Words(cfg), PcAt(cfg, w, k));
            !StallsAt(cfg, w, k + b) && forall i :: k <= i < k + b ==> StallsAt(cfg, w, i)
    decreases BarriersFrom(Words(cfg), PcAt(cfg, w, k))
  {
    hide NextStop, Words;
    if StallsAt(cfg, w, k) {
      CountsOn(cfg, w, k + 1);
    }
  }

  /** Fetch never jumps, so all warps of a hardware launch meet the same barriers,
      at most one per program word. */
  lemma HardwareIsUniform(cfg: Config)
    requires StraightLine(cfg)
    ensures Uniform(cfg, BarriersFrom(Words(cfg), 0))
  {
    hide BarriersFrom, Turn;
    forall w | 0 <= w < cfg.total ensures StallsBefore(cfg, w, BarriersFrom(Words(cfg), 0)) && !StallsAt(cfg, w, BarriersFrom(Words(cfg), 0)) {
      CountsOn(cfg, w, 0);
    }
  }

  /** So every hardware launch that fits and is not empty completes, with unbounded signal streams. */
  lemma HardwareCompletes(cfg: Config, rounds: seq<seq<Process>>, s: System)
    requires cfg.Valid() && StraightLine(cfg) && InitialSystem(cfg, s) && 0 < cfg.total <= cfg.n * cfg.m
    requires forall i :: 0 <= i < |rounds| ==> Covers(cfg, rounds[i])
    requires |rounds| >= Bound(cfg, BarriersFrom(Words(cfg), 0))
    ensures AfterRounds(cfg, rounds, s).barrier.completed
  {
    hide StraightLine, InitialSystem, Bound, Covers, Uniform;
    HardwareIsUniform(cfg);
    LaunchCompletes(cfg, BarriersFrom(Words(cfg), 0), rounds, s);
  }
}

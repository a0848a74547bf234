// The global barrier over a whole launch, in every interleaving
// (hls/src/scheduler/barrier_arbiter.h:73-99, 158-202; gpgpu_top.h:230-277).

module Launch {
  import opened Isa
  import opened Warp
  import opened Slots
  import opened Sums
  import opened Numbers
  import opened Protocol
  import opened Loading

  // ----- What each warp does, dispatch after dispatch -----

  function Words(cfg: Config): seq<Word> {
    if |cfg.program| <= MAX_PROGRAM_LEN then cfg.program else cfg.program[..MAX_PROGRAM_LEN]
  }

  /** Where warp w's k-th dispatch starts, counting from 0. */
  function PcAt(cfg: Config, w: nat, k: nat): nat
    decreases k, 0
  {
    if k == 0 then 0 else Turn(cfg, w, k - 1).1
  }

  /** How warp w's k-th dispatch ends. */
  function Turn(cfg: Config, w: nat, k: nat): (Stop, nat)
    decreases k, 1
  {
    cfg.exec(Words(cfg), cfg.WarpId(w), PcAt(cfg, w, k))
  }

  predicate StallsAt(cfg: Config, w: nat, k: nat) { Turn(cfg, w, k).0.Stalled? }

  predicate StallsBefore(cfg: Config, w: nat, k: nat) {
    forall i :: 0 <= i < k ==> StallsAt(cfg, w, i)
  }

  // ----- The invariant of one unit, at release count g -----

  predicate Pending(u: Unit) { u.signals != [] && u.signals[0].release }

  predicate Finished(u: Unit) { u.launched && !u.running }

  /** How many releases the unit's slots have seen. Units with warps are at most one behind. */
  function Level(g: nat, u: Unit): nat { if Pending(u) && g > 0 then g - 1 else g }

  function DoneSignals(done: bool, u: Unit): nat { if done && !Finished(u) then 1 else 0 }

  predicate SignalsOk(g: nat, done: bool, u: Unit) {
    var tail := DoneSignals(done, u);
    && tail <= |u.signals| <= g + tail
    && (forall i :: 0 <= i < |u.signals| - tail ==> u.signals[i] == RELEASE)
    && (tail == 1 ==> u.signals[|u.signals| - 1] == KERNEL_DONE)
    && (Finished(u) ==> done && u.signals == [])
  }

  /** A warp that has seen g releases; `ran` if its report is on its way. */
  predicate SlotOk(cfg: Config, w: nat, g: nat, slot: WarpSlot, runs: nat, ran: bool) {
    && slot.warpId == cfg.WarpId(w)
    && StallsBefore(cfg, w, g)
    && match slot.state
       case EMPTY => false
       case READY => runs == (if ran then g + 1 else g) && slot.resumePc == PcAt(cfg, w, g)
       case STALLED => runs == g + 1 && StallsAt(cfg, w, g) && slot.resumePc == PcAt(cfg, w, g + 1)
       case DONE => runs == g + 1 && !StallsAt(cfg, w, g)
  }

  predicate Reporting(u: Unit, j: nat) { u.statuses != [] && u.statuses[0].slot == j }

  predicate SlotsOk(cfg: Config, c: nat, g: nat, u: Unit)
    requires |u.slots| == |u.runs| == cfg.m
  {
    forall j :: 0 <= j < cfg.m ==>
      if cfg.Resident(c, j) then SlotOk(cfg, cfg.Local(c, j), g, u.slots[j], u.runs[j], Reporting(u, j))
      else u.slots[j].state.EMPTY? && u.runs[j] == 0
  }

  /** At most one dispatch or report is out, and it belongs to a READY slot. */
  predicate FlightOk(cfg: Config, c: nat, g: nat, u: Unit)
    requires |u.slots| == |u.runs| == cfg.m
  {
    && |u.dispatches| + |u.statuses| == (if u.busy then 1 else 0)
    && (u.dispatches != [] ==>
        var d := u.dispatches[0];
        d.slot < cfg.m && u.slots[d.slot].state.READY? && d.warpId == u.slots[d.slot].warpId && d.resumePc == u.slots[d.slot].resumePc)
    && (u.statuses != [] ==>
        var st := u.statuses[0];
        st.slot < cfg.m && u.slots[st.slot].state.READY? && (st.stop, st.resumePc) == Turn(cfg, cfg.Local(c, st.slot), g))
  }

  predicate AllIn(cfg: Config, c: nat, u: Unit, state: SlotState)
    requires |u.slots| == cfg.m
  {
    forall j :: 0 <= j < cfg.m && cfg.Resident(c, j) ==> u.slots[j].state == state
  }

  predicate Idle(u: Unit) {
    && !u.running && !u.busy && u.dispatches == [] && u.statuses == [] && u.events == []
    && (forall j :: 0 <= j < |u.slots| ==> u.slots[j].state.EMPTY?)
    && forall j :: 0 <= j < |u.runs| ==> u.runs[j] == 0
  }

  predicate Active(cfg: Config, c: nat, g: nat, done: bool, u: Unit)
    requires |u.slots| == |u.runs| == cfg.m
  {
    && SlotsOk(cfg, c, Level(g, u), u)
    && FlightOk(cfg, c, Level(g, u), u)
    && (Pending(u) && c < cfg.total ==> AllIn(cfg, c, u, STALLED) && u.events == [])
    && (done && c < cfg.total ==> AllIn(cfg, c, u, DONE) && u.events == [])
  }

  predicate UnitInv(cfg: Config, c: nat, g: nat, done: bool, u: Unit) {
    && |u.slots| == |u.runs| == cfg.m
    && SignalsOk(g, done, u)
    && (c < cfg.total ==> |u.signals| <= 1)
    && if u.launched then Active(cfg, c, g, done, u)
       else Idle(u) && |u.signals| == g + DoneSignals(done, u) && (c < cfg.total ==> g == 0 && !done)
  }

  // ----- Counting -----

  function IsStalled(slot: WarpSlot): int { if slot.state.STALLED? then 1 else 0 }
  function IsDone(slot: WarpSlot): int { if slot.state.DONE? then 1 else 0 }
  function IsStallEvent(e: Code): int { if e.STALLED_AT_BARRIER? then 1 else 0 }
  function IsDoneEvent(e: Code): int { if e.COMPLETED? then 1 else 0 }

  /** Arrivals at the current barrier that the arbiter has counted. Slots whose
      release is still on its way belong to the barrier before. */
  function SeenStalls(u: Unit): int {
    (if Pending(u) then 0 else Total(u.slots, IsStalled)) - Total(u.events, IsStallEvent)
  }

  function SeenDone(u: Unit): int { Total(u.slots, IsDone) - Total(u.events, IsDoneEvent) }

  predicate Counts(u: Unit) { SeenStalls(u) >= 0 && SeenDone(u) >= 0 }

  // ----- The invariant of the launch -----

  predicate BarrierOk(cfg: Config, b: Barrier, units: seq<Unit>) {
    && b.stalled == Total(units, SeenStalls)
    && b.done == Total(units, SeenDone)
    && (b.busy ==> b.total == cfg.total && !cfg.Faulty() && !b.completed)
    && (b.completed ==> b.total == cfg.total == b.done && !cfg.Faulty() && 0 < cfg.total)
    && (!b.busy && !b.completed ==> b.releases == 0 && b.stalled == b.done == 0)
    && (b.fault ==> cfg.Faulty())
  }

  predicate UnitsInv(cfg: Config, g: nat, done: bool, units: seq<Unit>) {
    && |units| == cfg.n
    && forall c :: 0 <= c < cfg.n ==>
        UnitInv(cfg, c, g, done, units[c]) && Counts(units[c]) && (cfg.Faulty() ==> !units[c].launched)
  }

  predicate Inv(cfg: Config, s: System) {
    && Loads(cfg, s)
    && UnitsInv(cfg, s.barrier.releases, s.barrier.completed, s.units)
    && BarrierOk(cfg, s.barrier, s.units)
  }

  lemma InitialInv(cfg: Config, s: System)
    requires cfg.Valid() && InitialSystem(cfg, s)
    ensures Inv(cfg, s)
  {
    InitialLoads(cfg, s);
    forall c | 0 <= c < cfg.n ensures UnitInv(cfg, c, 0, false, s.units[c]) && SeenStalls(s.units[c]) == SeenDone(s.units[c]) == 0 {
      TotalZero(s.units[c].slots, IsStalled);
      TotalZero(s.units[c].slots, IsDone);
    }
    TotalZero(s.units, SeenStalls);
    TotalZero(s.units, SeenDone);
  }

  // ----- The scheduler's steps -----

  /** A step that keeps the invariant and every counted arrival. */
  predicate Kept(cfg: Config, c: nat, g: nat, done: bool, u: Unit, v: Unit) {
    && UnitInv(cfg, c, g, done, v)
    && SeenStalls(v) == SeenStalls(u) && SeenDone(v) == SeenDone(u)
  }

  // The signal stream and the scheduler's phase decide these.
  lemma SignalsSame(g: nat, done: bool, u: Unit, v: Unit)
    requires v.signals == u.signals && v.launched == u.launched && v.running == u.running
    ensures SignalsOk(g, done, v) == SignalsOk(g, done, u)
    ensures Pending(v) == Pending(u) && Level(g, v) == Level(g, u)
  {
  }

  lemma DispatchKept(cfg: Config, c: nat, g: nat, done: bool, u: Unit)
    requires UnitInv(cfg, c, g, done, u) && u.launched
    ensures Kept(cfg, c, g, done, u, DispatchStep(u))
  {
    hide SignalsOk, Level, Pending, StallsBefore, Turn, PcAt;
    var j, v := NextReady(u.slots), DispatchStep(u);
    SignalsSame(g, done, u, v);
    if !u.busy && j < cfg.m {
      TotalUpdate(u.slots, j, v.slots[j], IsStalled);
      TotalUpdate(u.slots, j, v.slots[j], IsDone);
    }
  }

  lemma StatusKept(cfg: Config, c: nat, g: nat, done: bool, u: Unit)
    requires UnitInv(cfg, c, g, done, u) && u.launched
    ensures Kept(cfg, c, g, done, u, StatusStep(u))
  {
    hide SeenStalls, SeenDone, SignalsOk, Level, Pending;
    var v := StatusStep(u);
    SignalsSame(g, done, u, v);
    if u.statuses != [] {
      StatusCounts(cfg, c, g, done, u);
    }
  }

  lemma StatusCounts(cfg: Config, c: nat, g: nat, done: bool, u: Unit)
    requires UnitInv(cfg, c, g, done, u) && u.launched && u.statuses != []
    ensures SeenStalls(StatusStep(u)) == SeenStalls(u) && SeenDone(StatusStep(u)) == SeenDone(u)
  {
    hide SignalsOk, SlotOk, Level, Turn;
    var st, v := u.statuses[0], StatusStep(u);
    TotalUpdate(u.slots, st.slot, v.slots[st.slot], IsStalled);
    TotalUpdate(u.slots, st.slot, v.slots[st.slot], IsDone);
    TotalAppend(u.events, CodeOf(st.stop), IsStallEvent);
    TotalAppend(u.events, CodeOf(st.stop), IsDoneEvent);
    if Pending(u) {
      PendingQuiet(cfg, c, g, done, u);
      assert false;
    }
  }

  /** While a release is on its way to a unit, nothing of the unit is in flight. */
  lemma PendingQuiet(cfg: Config, c: nat, g: nat, done: bool, u: Unit)
    requires UnitInv(cfg, c, g, done, u) && u.launched && (Pending(u) || c >= cfg.total)
    ensures u.statuses == [] && u.dispatches == [] && !u.busy
  {
    hide SignalsOk, Level, Turn, StallsBefore, PcAt;
    if c >= cfg.total {
      forall j | 0 <= j < cfg.m ensures !cfg.Resident(c, j) {
        NoWarps(cfg, c, j);
      }
    }
  }

  lemma SignalKept(cfg: Config, c: nat, g: nat, done: bool, u: Unit)
    requires UnitInv(cfg, c, g, done, u) && u.launched && u.running
    ensures Kept(cfg, c, g, done, u, SignalStep(u))
  {
    hide Turn, PcAt;
    if u.signals != [] {
      var v := SignalStep(u);
      if u.signals[0].release {
        ReleaseKept(cfg, c, g, done, u);
      } else {
        assert u.signals == [KERNEL_DONE];
      }
    }
  }

  lemma NoWarps(cfg: Config, c: nat, j: nat)
    requires c >= cfg.total
    ensures !cfg.Resident(c, j)
  {
    assert j * cfg.n >= 0;
  }

  // With warps resident, every slot was waiting for this release.
  lemma ReleaseKept(cfg: Config, c: nat, g: nat, done: bool, u: Unit)
    requires UnitInv(cfg, c, g, done, u) && u.launched && u.running && Pending(u)
    ensures Kept(cfg, c, g, done, u, SignalStep(u))
  {
    hide Turn, PcAt, SlotsOk, FlightOk, ReleaseSlots;
    var v := SignalStep(u);
    assert u.signals[0] == RELEASE;
    PendingQuiet(cfg, c, g, done, u);
    ReleaseTotals(u);
    if c < cfg.total {
      ReleasedSlots(cfg, c, g, u);
      TotalZero(u.events, IsStallEvent);
    } else {
      ReleasedNone(cfg, c, Level(g, u), Level(g, v), u);
    }
  }

  lemma ReleaseTotals(u: Unit)
    requires Pending(u)
    ensures |SignalStep(u).slots| == |u.slots|
    ensures Total(SignalStep(u).slots, IsDone) == Total(u.slots, IsDone) && Total(SignalStep(u).slots, IsStalled) == 0
  {
    var v := SignalStep(u);
    TotalSame(u.slots, v.slots, IsDone, IsDone);
    TotalZero(v.slots, IsStalled);
  }

  lemma ReleasedSlots(cfg: Config, c: nat, g: nat, u: Unit)
    requires |u.slots| == |u.runs| == cfg.m && g > 0 && SlotsOk(cfg, c, g - 1, u) && AllIn(cfg, c, u, STALLED)
    requires Pending(u) && u.statuses == [] && u.dispatches == [] && !u.busy
    ensures SlotsOk(cfg, c, g, SignalStep(u)) && FlightOk(cfg, c, g, SignalStep(u))
  {
    hide Turn, PcAt;
  }

  lemma ReleasedNone(cfg: Config, c: nat, g: nat, g': nat, u: Unit)
    requires c >= cfg.total && |u.slots| == |u.runs| == cfg.m && SlotsOk(cfg, c, g, u)
    requires Pending(u) && u.statuses == [] && u.dispatches == [] && !u.busy
    ensures SlotsOk(cfg, c, g', SignalStep(u)) && FlightOk(cfg, c, g', SignalStep(u))
  {
    hide SlotOk;
    forall j | 0 <= j < cfg.m ensures !cfg.Resident(c, j) {
      NoWarps(cfg, c, j);
    }
  }

  lemma LaunchKept(cfg: Config, c: nat, g: nat, done: bool, u: Unit)
    requires UnitInv(cfg, c, g, done, u) && !u.launched
    ensures Kept(cfg, c, g, done, u, LaunchStep(cfg, c, u))
  {
    hide SlotsOk, FlightOk, LaunchSlots;
    var v := LaunchStep(cfg, c, u);
    LaunchedSlots(cfg, c, Level(g, v), u);
    TotalZero(u.slots, IsStalled);
    TotalZero(u.slots, IsDone);
  }

  lemma LaunchedSlots(cfg: Config, c: nat, g: nat, u: Unit)
    requires |u.slots| == |u.runs| == cfg.m && Idle(u) && !u.launched && (c < cfg.total ==> g == 0)
    ensures var v := LaunchStep(cfg, c, u);
            v.launched ==> |v.slots| == cfg.m && SlotsOk(cfg, c, g, v) && FlightOk(cfg, c, g, v)
                           && Total(v.slots, IsStalled) == Total(v.slots, IsDone) == 0
  {
    hide Turn;
    var v := LaunchStep(cfg, c, u);
    if v.launched {
      TotalZero(v.slots, IsStalled);
      TotalZero(v.slots, IsDone);
      if c >= cfg.total {
        forall j | 0 <= j < cfg.m ensures !cfg.Resident(c, j) {
          NoWarps(cfg, c, j);
        }
      }
    }
  }

  lemma SchedulerKept(cfg: Config, c: nat, g: nat, done: bool, u: Unit)
    requires UnitInv(cfg, c, g, done, u) && (u.launched && !u.running ==> u.tokens == 0)
    ensures Kept(cfg, c, g, done, u, SchedulerPass(cfg, c, u))
  {
    hide UnitInv, SeenStalls, SeenDone, DispatchStep, StatusStep, SignalStep, LaunchStep;
    if u.running {
      assert u.launched by { RunningLaunched(cfg, c, g, done, u); }
      var v := DispatchStep(u);
      DispatchKept(cfg, c, g, done, u);
      StepsStay(u);
      var w := StatusStep(v);
      StatusKept(cfg, c, g, done, v);
      StepsStay(v);
      SignalKept(cfg, c, g, done, w);
    } else if !u.launched {
      LaunchKept(cfg, c, g, done, u);
    } else {
      NoLaunch(cfg, c, u);
    }
  }

  lemma RunningLaunched(cfg: Config, c: nat, g: nat, done: bool, u: Unit)
    requires UnitInv(cfg, c, g, done, u) && u.running
    ensures u.launched
  {
  }

  lemma NoLaunch(cfg: Config, c: nat, u: Unit)
    requires u.tokens == 0
    ensures LaunchStep(cfg, c, u) == u
  {
  }

  lemma StepsStay(u: Unit)
    ensures DispatchStep(u).launched == StatusStep(u).launched == u.launched
    ensures DispatchStep(u).running == StatusStep(u).running == u.running
  {
  }

  // ----- The pipeline's steps -----

  lemma SeedKept(cfg: Config, c: nat, g: nat, done: bool, u: Unit)
    requires UnitInv(cfg, c, g, done, u) && u.seeds != []
    ensures Kept(cfg, c, g, done, u, SeedStep(u))
  {
    hide SlotsOk, FlightOk, SignalsOk, Level, Pending;
    SignalsSame(g, done, u, SeedStep(u));
    SlotsSame(cfg, c, Level(g, u), u, SeedStep(u));
  }

  /** The fetched words are the host's program once a unit has launched. */
  lemma FetchedWords(cfg: Config, l: Loader, c: nat, u: Unit)
    requires cfg.Valid() && LoaderOk(cfg, l) && UnitLoad(cfg, l, c, u) && u.launched
    ensures Fetched(u.store, |cfg.program|) == Words(cfg)
  {
    assert l.loadIdx == MAX_PROGRAM_LEN;
    assert StoreOk(cfg, l, u.store);
    var f, w := Fetched(u.store, |cfg.program|), Words(cfg);
    assert |f| == |w|;
    assert forall k :: 0 <= k < |f| ==> f[k] == u.store[k] == cfg.program[k] == w[k];
  }

  lemma RunKept(cfg: Config, c: nat, g: nat, done: bool, u: Unit, result: seq<Word>)
    requires UnitInv(cfg, c, g, done, u) && u.dispatches != [] && |u.store| == MAX_PROGRAM_LEN
    requires Fetched(u.store, |cfg.program|) == Words(cfg)
    ensures u.dispatches[0].slot < cfg.m
    ensures Kept(cfg, c, g, done, u, DispatchedRun(cfg, u, result))
  {
    hide Fetched, Words, PcAt;
    var d, v := u.dispatches[0], DispatchedRun(cfg, u, result);
    assert u.launched && u.statuses == [] && |u.dispatches| == 1;
    var level := Level(g, u);
    assert cfg.Resident(c, d.slot);
    assert SlotOk(cfg, cfg.Local(c, d.slot), level, u.slots[d.slot], u.runs[d.slot], false);
    assert Execute(cfg, u, d) == Turn(cfg, cfg.Local(c, d.slot), level);
    assert v.statuses == [Status(d.slot, Execute(cfg, u, d).0, Execute(cfg, u, d).1)];
    assert SlotsOk(cfg, c, level, v);
  }

  // ----- Where the warps are -----

  function ResidentRow(cfg: Config, c: nat): seq<int> {
    seq(cfg.m, j requires 0 <= j < cfg.m => if cfg.Resident(c, j) then 1 else 0)
  }

  function Residents(cfg: Config, c: nat): int { Total(ResidentRow(cfg, c), Itself) }

  function AllResidents(cfg: Config): seq<int> {
    seq(cfg.n, c requires 0 <= c < cfg.n => Residents(cfg, c))
  }

  /** Every warp of a launch that fits has exactly one slot. */
  lemma {:induction false} WarpsPlaced(cfg: Config)
    requires 0 < cfg.n && !cfg.Faulty()
    ensures Total(AllResidents(cfg), Itself) == cfg.total
    decreases cfg.total
  {
    if cfg.total == 0 {
      forall c | 0 <= c < cfg.n ensures Residents(cfg, c) == 0 {
        forall j | 0 <= j < cfg.m ensures !cfg.Resident(c, j) {
          NoWarps(cfg, c, j);
        }
        TotalZero(ResidentRow(cfg, c), Itself);
      }
      TotalZero(AllResidents(cfg), Itself);
    } else {
      var before := cfg.(total := cfg.total - 1);
      WarpsPlaced(before);
      LastWarp(cfg, before);
      var c := before.total % cfg.n;
      TotalUpdate(AllResidents(before), c, Residents(cfg, c), Itself);
    }
  }

  lemma LastWarp(cfg: Config, before: Config)
    requires 0 < cfg.n && !cfg.Faulty() && 0 < cfg.total && before == cfg.(total := cfg.total - 1)
    ensures var c := before.total % cfg.n;
            Residents(cfg, c) == Residents(before, c) + 1 && AllResidents(cfg) == AllResidents(before)[c := Residents(cfg, c)]
  {
    var w, n := before.total, cfg.n;
    var c, j := w % n, w / n;
    Placement(n, c, j, w);
    assert j < cfg.m;
    forall c', j' | 0 <= c' < n && 0 <= j' < cfg.m ensures cfg.Resident(c', j') <==> before.Resident(c', j') || (c' == c && j' == j) {
      Placement(n, c', j', w);
    }
    assert ResidentRow(cfg, c) == ResidentRow(before, c)[j := 1];
    TotalUpdate(ResidentRow(before, c), j, 1, Itself);
    forall c' | 0 <= c' < n && c' != c ensures Residents(cfg, c') == Residents(before, c') {
      assert ResidentRow(cfg, c') == ResidentRow(before, c');
    }
  }

  /** No unit reports more arrivals than it has warps. */
  lemma ArrivalsWithin(cfg: Config, c: nat, g: nat, done: bool, u: Unit)
    requires UnitInv(cfg, c, g, done, u) && Counts(u)
    ensures SeenStalls(u) <= Residents(cfg, c) && SeenDone(u) <= Residents(cfg, c)
  {
    hide SignalsOk, Level, Turn, PcAt, StallsBefore, FlightOk;
    var row := ResidentRow(cfg, c);
    TotalWithin(u.slots, row, IsStalled, Itself);
    TotalWithin(u.slots, row, IsDone, Itself);
    NotNegative(u.events, IsStallEvent);
    NotNegative(u.events, IsDoneEvent);
    TotalZero(seq(cfg.m, _ => 0), Itself);
    TotalWithin(seq(cfg.m, _ => 0), row, Itself, Itself);
  }

  lemma HasWarp(cfg: Config, c: nat)
    requires c < cfg.total && 0 < cfg.m
    ensures cfg.Resident(c, 0) && Residents(cfg, c) > 0
  {
    var row := ResidentRow(cfg, c);
    assert row[0] == 1;
    NotNegative(row[1..], Itself);
  }

  lemma {:induction false} NoEvents(events: seq<Code>)
    requires Total(events, IsStallEvent) <= 0 && Total(events, IsDoneEvent) <= 0
    ensures events == []
  {
    if events != [] {
      NotNegative(events[1..], IsStallEvent);
      NotNegative(events[1..], IsDoneEvent);
    }
  }

  predicate Full(cfg: Config, c: nat, u: Unit, state: SlotState) {
    u.launched && !Pending(u) && |u.slots| == cfg.m && AllIn(cfg, c, u, state) && u.events == []
  }

  /** If all of a unit's warps have arrived, that is all the unit has to say. */
  lemma AllArrived(cfg: Config, c: nat, g: nat, done: bool, u: Unit)
    requires UnitInv(cfg, c, g, done, u) && Counts(u) && c < cfg.total && 0 < cfg.m
    ensures SeenStalls(u) == Residents(cfg, c) ==> Full(cfg, c, u, STALLED)
    ensures SeenDone(u) == Residents(cfg, c) ==> Full(cfg, c, u, DONE)
  {
    hide SignalsOk, Level, Turn, PcAt, StallsBefore, FlightOk;
    HasWarp(cfg, c);
    var row := ResidentRow(cfg, c);
    NotNegative(u.events, IsStallEvent);
    NotNegative(u.events, IsDoneEvent);
    if SeenStalls(u) == Residents(cfg, c) {
      TotalWithin(u.slots, row, IsStalled, Itself);
      TotalTight(u.slots, row, IsStalled, Itself);
      assert forall j :: 0 <= j < cfg.m ==> IsStalled(u.slots[j]) == row[j];
      TotalZero(u.slots, IsDone);
      NoEvents(u.events);
    }
    if SeenDone(u) == Residents(cfg, c) {
      TotalWithin(u.slots, row, IsDone, Itself);
      TotalTight(u.slots, row, IsDone, Itself);
      assert forall j :: 0 <= j < cfg.m ==> IsDone(u.slots[j]) == row[j];
      TotalZero(u.slots, IsStalled);
      NoEvents(u.events);
      assert u.slots[0].state.DONE?;
    }
  }

  // ----- The barrier's steps -----

  lemma PopKept(cfg: Config, c: nat, g: nat, done: bool, u: Unit)
    requires UnitInv(cfg, c, g, done, u) && Counts(u)
    ensures UnitInv(cfg, c, g, done, Popped(u)) && Counts(Popped(u))
    ensures SeenStalls(Popped(u)) == SeenStalls(u) + HeadStalled(u) && SeenDone(Popped(u)) == SeenDone(u) + HeadCompleted(u)
    ensures Popped(u).launched == u.launched
  {
    hide SignalsOk, Level, SlotsOk, Turn;
    SignalsSame(g, done, u, Popped(u));
    SlotsSame(cfg, c, Level(g, u), u, Popped(u));
  }

  // Slots and what is in flight decide these.
  lemma SlotsSame(cfg: Config, c: nat, g: nat, u: Unit, v: Unit)
    requires |u.slots| == |u.runs| == cfg.m
    requires v.slots == u.slots && v.runs == u.runs && v.dispatches == u.dispatches && v.statuses == u.statuses && v.busy == u.busy
    ensures SlotsOk(cfg, c, g, v) == SlotsOk(cfg, c, g, u) && FlightOk(cfg, c, g, v) == FlightOk(cfg, c, g, u)
  {
    hide SlotOk, Turn;
  }

  lemma PollKept(cfg: Config, s: System)
    requires UnitsInv(cfg, s.barrier.releases, s.barrier.completed, s.units)
    requires s.barrier.stalled == Total(s.units, SeenStalls) && s.barrier.done == Total(s.units, SeenDone)
    ensures UnitsInv(cfg, s.barrier.releases, s.barrier.completed, Poll(s).units)
    ensures Poll(s).barrier.stalled == Total(Poll(s).units, SeenStalls)
    ensures Poll(s).barrier.done == Total(Poll(s).units, SeenDone)
  {
    hide UnitInv, SeenStalls, SeenDone, Popped, Counts;
    var t := Poll(s);
    forall c | 0 <= c < cfg.n
      ensures UnitInv(cfg, c, s.barrier.releases, s.barrier.completed, t.units[c]) && Counts(t.units[c])
      ensures SeenStalls(t.units[c]) == SeenStalls(s.units[c]) + HeadStalled(s.units[c])
      ensures SeenDone(t.units[c]) == SeenDone(s.units[c]) + HeadCompleted(s.units[c])
      ensures t.units[c].launched == s.units[c].launched
    {
      PopKept(cfg, c, s.barrier.releases, s.barrier.completed, s.units[c]);
    }
    TotalGains(s.units, t.units, SeenStalls, HeadStalled);
    TotalGains(s.units, t.units, SeenDone, HeadCompleted);
  }

  /** The totals a set of units can reach, and what reaching them means. */
  lemma EveryoneArrived(cfg: Config, g: nat, done: bool, units: seq<Unit>)
    requires cfg.Valid() && !cfg.Faulty() && UnitsInv(cfg, g, done, units)
    ensures Total(units, SeenStalls) == cfg.total ==> forall c :: 0 <= c < cfg.n && c < cfg.total ==> Full(cfg, c, units[c], STALLED)
    ensures Total(units, SeenDone) == cfg.total ==> forall c :: 0 <= c < cfg.n && c < cfg.total ==> Full(cfg, c, units[c], DONE)
  {
    hide UnitInv, SeenStalls, SeenDone, Full;
    var all := AllResidents(cfg);
    WarpsPlaced(cfg);
    forall c | 0 <= c < cfg.n ensures SeenStalls(units[c]) <= Itself(all[c]) && SeenDone(units[c]) <= Itself(all[c]) {
      ArrivalsWithin(cfg, c, g, done, units[c]);
    }
    forall c | 0 <= c < cfg.n && c < cfg.total
      ensures SeenStalls(units[c]) == Residents(cfg, c) ==> Full(cfg, c, units[c], STALLED)
      ensures SeenDone(units[c]) == Residents(cfg, c) ==> Full(cfg, c, units[c], DONE)
    {
      AllArrived(cfg, c, g, done, units[c]);
    }
    if Total(units, SeenStalls) == cfg.total {
      TotalTight(units, all, SeenStalls, Itself);
    }
    if Total(units, SeenDone) == cfg.total {
      TotalTight(units, all, SeenDone, Itself);
    }
  }

  lemma ToldRelease(cfg: Config, c: nat, g: nat, u: Unit)
    requires UnitInv(cfg, c, g, false, u) && Counts(u)
    requires c < cfg.total ==> Full(cfg, c, u, STALLED)
    ensures var v := Told(RELEASE, u);
            UnitInv(cfg, c, g + 1, false, v) && Counts(v) && SeenStalls(v) == 0 && SeenDone(v) == SeenDone(u)
  {
    hide SlotsOk, FlightOk, Turn;
    var v := Told(RELEASE, u);
    assert SignalsOk(g + 1, false, v);
    NotNegative(u.events, IsStallEvent);
    if c >= cfg.total {
      Unstalled(cfg, c, g, false, u);
    }
    if u.launched {
      SlotsSame(cfg, c, Level(g, u), u, v);
      if c >= cfg.total {
        AnyLevel(cfg, c, Level(g, u), Level(g + 1, v), v);
      }
    }
  }

  // A unit without warps has only empty slots, whatever the count.
  lemma AnyLevel(cfg: Config, c: nat, g: nat, g': nat, u: Unit)
    requires c >= cfg.total && |u.slots| == |u.runs| == cfg.m && SlotsOk(cfg, c, g, u) && FlightOk(cfg, c, g, u)
    ensures SlotsOk(cfg, c, g', u) && FlightOk(cfg, c, g', u)
  {
    hide SlotOk;
    forall j | 0 <= j < cfg.m ensures !cfg.Resident(c, j) {
      NoWarps(cfg, c, j);
    }
  }

  lemma Unstalled(cfg: Config, c: nat, g: nat, done: bool, u: Unit)
    requires UnitInv(cfg, c, g, done, u) && c >= cfg.total
    ensures Total(u.slots, IsStalled) == 0 && Total(u.slots, IsDone) == 0
  {
    hide SignalsOk, SlotOk;
    forall j | 0 <= j < cfg.m ensures !cfg.Resident(c, j) {
      NoWarps(cfg, c, j);
    }
    TotalZero(u.slots, IsStalled);
    TotalZero(u.slots, IsDone);
  }

  lemma ToldDone(cfg: Config, c: nat, g: nat, u: Unit)
    requires UnitInv(cfg, c, g, false, u) && Counts(u) && 0 < cfg.m
    requires c < cfg.total ==> Full(cfg, c, u, DONE)
    ensures var v := Told(KERNEL_DONE, u);
            UnitInv(cfg, c, g, true, v) && Counts(v) && SeenStalls(v) == SeenStalls(u) && SeenDone(v) == SeenDone(u)
  {
    hide SlotsOk, FlightOk, Turn;
    var v := Told(KERNEL_DONE, u);
    assert SignalsOk(g, true, v);
    if u.launched {
      SlotsSame(cfg, c, Level(g, u), u, v);
    }
  }

  /** Release and completion are never both due. */
  lemma NeverBoth(cfg: Config, g: nat, done: bool, units: seq<Unit>)
    requires cfg.Valid() && !cfg.Faulty() && UnitsInv(cfg, g, done, units) && 0 < cfg.total
    ensures !(Total(units, SeenStalls) == cfg.total && Total(units, SeenDone) == cfg.total)
  {
    hide UnitInv, SeenStalls, SeenDone;
    EveryoneArrived(cfg, g, done, units);
    if Total(units, SeenStalls) == cfg.total && Total(units, SeenDone) == cfg.total {
      assert Full(cfg, 0, units[0], STALLED) && Full(cfg, 0, units[0], DONE);
      HasWarp(cfg, 0);
      assert false;
    }
  }

  lemma ReleaseStepKept(cfg: Config, s: System)
    requires cfg.Valid() && UnitsInv(cfg, s.barrier.releases, false, s.units)
    requires BarrierOk(cfg, s.barrier, s.units) && s.barrier.busy
    ensures var t := ReleaseStep(s);
            UnitsInv(cfg, t.barrier.releases, false, t.units) && BarrierOk(cfg, t.barrier, t.units)
            && t.barrier.busy
  {
    hide UnitInv, SeenStalls, SeenDone, Told, Full;
    var t := ReleaseStep(s);
    if ReleaseReady(s.barrier) {
      EveryoneArrived(cfg, s.barrier.releases, false, s.units);
      forall c | 0 <= c < cfg.n
        ensures UnitInv(cfg, c, t.barrier.releases, false, t.units[c]) && Counts(t.units[c])
        ensures SeenStalls(t.units[c]) == 0 && SeenDone(t.units[c]) == SeenDone(s.units[c])
        ensures t.units[c].launched == s.units[c].launched
      {
        ToldRelease(cfg, c, s.barrier.releases, s.units[c]);
        ToldOnly(RELEASE, s.units[c]);
      }
      TotalZero(t.units, SeenStalls);
      TotalSame(s.units, t.units, SeenDone, SeenDone);
    }
  }

  lemma ToldOnly(sig: Signal, u: Unit)
    ensures Told(sig, u).launched == u.launched
  {
  }

  lemma CompleteStepKept(cfg: Config, s: System)
    requires cfg.Valid() && UnitsInv(cfg, s.barrier.releases, false, s.units)
    requires BarrierOk(cfg, s.barrier, s.units) && s.barrier.busy
    ensures var t := CompleteStep(s);
            UnitsInv(cfg, t.barrier.releases, t.barrier.completed, t.units) && BarrierOk(cfg, t.barrier, t.units)
  {
    hide UnitInv, SeenStalls, SeenDone, Told, Full;
    var t := CompleteStep(s);
    if KernelComplete(s.barrier) {
      EveryoneArrived(cfg, s.barrier.releases, false, s.units);
      forall c | 0 <= c < cfg.n
        ensures UnitInv(cfg, c, t.barrier.releases, true, t.units[c]) && Counts(t.units[c])
        ensures SeenStalls(t.units[c]) == SeenStalls(s.units[c]) && SeenDone(t.units[c]) == SeenDone(s.units[c])
        ensures t.units[c].launched == s.units[c].launched
      {
        ToldDone(cfg, c, s.barrier.releases, s.units[c]);
        ToldOnly(KERNEL_DONE, s.units[c]);
      }
      TotalSame(s.units, t.units, SeenStalls, SeenStalls);
      TotalSame(s.units, t.units, SeenDone, SeenDone);
    }
  }

  /** The loader's invariant sees neither events nor signals. */
  lemma BarrierLoads(cfg: Config, s: System)
    requires Loads(cfg, s)
    ensures Loads(cfg, BarrierPass(cfg, s))
  {
    hide UnitLoad, SameLoad, LoaderOk;
    var t := BarrierPass(cfg, s);
    forall c | 0 <= c < cfg.n ensures UnitLoad(cfg, t.loader, c, t.units[c]) {
      BarrierTouches(cfg, s, c);
      LoadKept(cfg, s.loader, c, s.units[c], t.units[c]);
    }
  }

  lemma BarrierTouches(cfg: Config, s: System, c: nat)
    requires c < |s.units|
    ensures var t := BarrierPass(cfg, s);
            t.loader == s.loader && |t.units| == |s.units| && SameLoad(s.units[c], t.units[c])
  {
    hide LaunchBarrier, Poll, ReleaseStep, CompleteStep, SameLoad;
    SameLoadSteps(s, c);
    if s.barrier.busy && !s.barrier.completed {
      var p := Poll(s);
      var r := ReleaseStep(p);
      SameLoadSteps(p, c);
      SameLoadSteps(r, c);
      SameLoadChain(s.units[c], p.units[c], r.units[c]);
      SameLoadChain(s.units[c], r.units[c], CompleteStep(r).units[c]);
    }
  }

  lemma SameLoadChain(u: Unit, v: Unit, w: Unit)
    requires SameLoad(u, v) && SameLoad(v, w)
    ensures SameLoad(u, w)
  {
  }

  lemma SameLoadSteps(s: System, c: nat)
    requires c < |s.units|
    ensures |Poll(s).units| == |ReleaseStep(s).units| == |CompleteStep(s).units| == |s.units|
    ensures Poll(s).loader == ReleaseStep(s).loader == CompleteStep(s).loader == s.loader
    ensures SameLoad(s.units[c], s.units[c]) && SameLoad(s.units[c], Poll(s).units[c])
    ensures SameLoad(s.units[c], ReleaseStep(s).units[c]) && SameLoad(s.units[c], CompleteStep(s).units[c])
  {
    hide ReleaseReady, KernelComplete, Total;
  }

  lemma BarrierKeeps(cfg: Config, s: System)
    requires cfg.Valid() && Inv(cfg, s)
    ensures Inv(cfg, BarrierPass(cfg, s))
  {
    hide UnitsInv, Loads, ReleaseStep, CompleteStep, SeenStalls, SeenDone;
    BarrierLoads(cfg, s);
    if s.barrier.busy && !s.barrier.completed {
      PollKept(cfg, s);
      ReleaseStepKept(cfg, Poll(s));
      CompleteStepKept(cfg, ReleaseStep(Poll(s)));
    }
  }

  // ----- Every step of every process -----

  lemma UnitKeeps(cfg: Config, s: System, c: nat, v: Unit)
    requires Inv(cfg, s) && c < cfg.n && UnitLoad(cfg, s.loader, c, v)
    requires Kept(cfg, c, s.barrier.releases, s.barrier.completed, s.units[c], v)
    requires cfg.Faulty() ==> !v.launched
    ensures Inv(cfg, s.(units := s.units[c := v]))
  {
    hide UnitInv, UnitLoad, SeenStalls, SeenDone, LoaderOk;
    TotalUpdate(s.units, c, v, SeenStalls);
    TotalUpdate(s.units, c, v, SeenDone);
  }

  lemma SchedulerKeeps(cfg: Config, s: System, c: nat)
    requires cfg.Valid() && Inv(cfg, s) && c < cfg.n
    ensures Inv(cfg, s.(units := s.units[c := SchedulerPass(cfg, c, s.units[c])]))
  {
    hide UnitInv, SeenStalls, SeenDone, LoaderOk, BarrierOk, DispatchStep, StatusStep, SignalStep, LaunchStep;
    var u := s.units[c];
    SchedulerKept(cfg, c, s.barrier.releases, s.barrier.completed, u);
    SchedulerLoads(cfg, s.loader, c, u);
    if cfg.Faulty() {
      NeverLaunched(cfg, c, s.barrier.releases, s.barrier.completed, u);
    }
    UnitKeeps(cfg, s, c, SchedulerPass(cfg, c, u));
  }

  lemma NeverLaunched(cfg: Config, c: nat, g: nat, done: bool, u: Unit)
    requires UnitInv(cfg, c, g, done, u) && cfg.Faulty() && !u.launched
    ensures SchedulerPass(cfg, c, u) == u
  {
  }

  lemma PipelineKeeps(cfg: Config, s: System, c: nat, result: seq<Word>)
    requires cfg.Valid() && Inv(cfg, s) && c < cfg.n
    ensures Inv(cfg, s.(units := s.units[c := PipelinePass(cfg, s.units[c], result)]))
  {
    hide SeenStalls, SeenDone, LoaderOk, BarrierOk, SlotsOk, FlightOk, SignalsOk, Level, RegsOk, SeedsOk, TokensOk, Fetched, Words;
    var u, v := s.units[c], PipelinePass(cfg, s.units[c], result);
    if u.seeds != [] {
      SeedKept(cfg, c, s.barrier.releases, s.barrier.completed, u);
      SeedLoads(cfg, s.loader, c, u);
      UnitKeeps(cfg, s, c, v);
    } else if u.dispatches != [] {
      FetchedWords(cfg, s.loader, c, u);
      RunKept(cfg, c, s.barrier.releases, s.barrier.completed, u, result);
      RunLoads(cfg, s.loader, c, u, result);
      UnitKeeps(cfg, s, c, v);
    } else {
      assert s.units[c := v] == s.units;
    }
  }

  /** Fields the loader leaves alone. */
  predicate SameControl(u: Unit, v: Unit) {
    && v.slots == u.slots && v.running == u.running && v.busy == u.busy && v.dispatches == u.dispatches
    && v.statuses == u.statuses && v.events == u.events && v.signals == u.signals && v.runs == u.runs && v.launched == u.launched
  }

  lemma ControlKept(cfg: Config, c: nat, g: nat, done: bool, u: Unit, v: Unit)
    requires UnitInv(cfg, c, g, done, u) && SameControl(u, v)
    ensures Kept(cfg, c, g, done, u, v)
  {
    hide SlotsOk, FlightOk;
    SignalsSame(g, done, u, v);
    SlotsSame(cfg, c, Level(g, u), u, v);
  }

  lemma LoaderKeeps(cfg: Config, s: System)
    requires cfg.Valid() && Inv(cfg, s)
    ensures Inv(cfg, LoaderPass(cfg, s))
  {
    hide UnitInv, SeenStalls, SeenDone, UnitLoad, LoaderOk, SameControl;
    var t := LoaderPass(cfg, s);
    if !s.loader.loaded {
      ProgramLoads(cfg, s);
    } else if !s.loader.regsDone {
      RegisterLoads(cfg, s);
    }
    forall c | 0 <= c < cfg.n
      ensures Kept(cfg, c, s.barrier.releases, s.barrier.completed, s.units[c], t.units[c])
      ensures t.units[c].launched == s.units[c].launched
    {
      LoaderTouches(cfg, s, c);
      ControlKept(cfg, c, s.barrier.releases, s.barrier.completed, s.units[c], t.units[c]);
    }
    TotalSame(s.units, t.units, SeenStalls, SeenStalls);
    TotalSame(s.units, t.units, SeenDone, SeenDone);
  }

  lemma LoaderTouches(cfg: Config, s: System, c: nat)
    requires c < |s.units|
    ensures var t := LoaderPass(cfg, s);
            t.barrier == s.barrier && |t.units| == |s.units| && SameControl(s.units[c], t.units[c])
            && t.units[c].launched == s.units[c].launched
  {
  }

  lemma PassKeeps(cfg: Config, p: Process, s: System)
    requires cfg.Valid() && Inv(cfg, s)
    ensures Inv(cfg, Pass(cfg, p, s))
  {
    hide LoaderPass, BarrierPass, SchedulerPass, PipelinePass, UnitInv, UnitLoad, BarrierOk, LoaderOk, Counts;
    match p
    case LOADER => LoaderKeeps(cfg, s);
    case ARBITER => BarrierKeeps(cfg, s);
    case SCHEDULER(c) => if c < cfg.n { SchedulerKeeps(cfg, s, c); }
    case PIPELINE(c, result) => if c < cfg.n { PipelineKeeps(cfg, s, c, result); }
  }

  lemma {:induction false} AlwaysInv(cfg: Config, passes: seq<Process>, s: System)
    requires cfg.Valid() && Inv(cfg, s)
    ensures Inv(cfg, After(cfg, passes, s))
    decreases |passes|
  {
    hide Inv, Pass;
    if passes != [] {
      PassKeeps(cfg, passes[0], s);
      AlwaysInv(cfg, passes[1..], Pass(cfg, passes[0], s));
    }
  }

  /** States a launch can reach, by whatever interleaving. */
  ghost predicate Reachable(cfg: Config, s: System) {
    exists start, passes :: InitialSystem(cfg, start) && s == After(cfg, passes, start)
  }

  lemma ReachableInv(cfg: Config, s: System)
    requires cfg.Valid() && Reachable(cfg, s)
    ensures Inv(cfg, s)
  {
    hide Inv, InitialSystem;
    var start, passes :| InitialSystem(cfg, start) && s == After(cfg, passes, start);
    InitialInv(cfg, start);
    AlwaysInv(cfg, passes, start);
  }
}

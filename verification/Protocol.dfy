// One launch as a state machine: program loader, schedulers, pipelines and the
// global barrier. One step is one pass of one process's endless loop
// (hls/src/scheduler/gpgpu_top.h, barrier_arbiter.h;
// hls/src/compute_unit/compute_pipeline.cpp).

module Protocol {
  import opened Isa
  import opened Warp
  import opened Slots
  import opened Sums

  datatype Code = COMPLETED | STALLED_AT_BARRIER

  datatype Signal = Signal(release: bool, kernelDone: bool)

  const RELEASE := Signal(true, false)
  const KERNEL_DONE := Signal(false, true)

  datatype Seed = Seed(slot: nat, i: nat, value: Word)

  /** One compute unit: scheduler variables, storage, and the streams it reads or
      writes. `runs` and `launched` are history: dispatches executed per slot, and
      whether the slots were ever filled. */
  datatype Unit = Unit(
    slots: seq<WarpSlot>, running: bool, busy: bool,
    regs: seq<seq<Word>>, store: seq<Word>,
    seeds: seq<Seed>, tokens: nat,
    dispatches: seq<Dispatch>, statuses: seq<Status>,
    events: seq<Code>, signals: seq<Signal>,
    runs: seq<nat>, launched: bool)

  datatype Loader = Loader(loaded: bool, loadIdx: nat, regsDone: bool, c: nat, slot: nat, i: nat)

  /** `releases` is history: how many times the barrier opened. */
  datatype Barrier = Barrier(total: nat, stalled: int, done: int, busy: bool, completed: bool, fault: bool, releases: nat)

  datatype System = System(loader: Loader, barrier: Barrier, units: seq<Unit>)

  datatype Process = LOADER | ARBITER | SCHEDULER(c: nat) | PIPELINE(c: nat, result: seq<Word>)

  const WORDS_PER_WARP := THREADS_PER_WARP * REGS_PER_THREAD

  // ----- schedulerCore -----

  function DispatchStep(u: Unit): Unit {
    if u.busy then u
    else
      var j := NextReady(u.slots);
      if j == |u.slots| then u
      else u.(dispatches := u.dispatches + [BuildDispatch(u.slots, j)], slots := Dispatched(u.slots, j), busy := true)
  }

  function CodeOf(stop: Stop): Code {
    if stop.Complete? then COMPLETED else STALLED_AT_BARRIER
  }

  function StatusStep(u: Unit): Unit {
    if u.statuses == [] then u
    else
      var st := u.statuses[0];
      u.(statuses := u.statuses[1..], slots := RecordResult(u.slots, st), events := u.events + [CodeOf(st.stop)], busy := false)
  }

  function SignalStep(u: Unit): Unit {
    if u.signals == [] then u
    else
      var sig := u.signals[0];
      u.(signals := u.signals[1..], slots := if sig.release then ReleaseSlots(u.slots) else u.slots,
         running := u.running && !sig.kernelDone)
  }

  function LaunchStep(cfg: Config, c: nat, u: Unit): Unit {
    if cfg.Faulty() || u.tokens == 0 then u
    else u.(tokens := u.tokens - 1, slots := LaunchSlots(cfg, c, u.slots), busy := false, running := true, launched := true)
  }

  function SchedulerPass(cfg: Config, c: nat, u: Unit): Unit {
    if !u.running then LaunchStep(cfg, c, u) else SignalStep(StatusStep(DispatchStep(u)))
  }

  // ----- compute_pipeline -----

  function SeedStep(u: Unit): Unit
    requires u.seeds != []
  {
    var s := u.seeds[0];
    u.(seeds := u.seeds[1..],
       regs := if s.slot < |u.regs| && s.i < |u.regs[s.slot]| then u.regs[s.slot := u.regs[s.slot][s.i := s.value]] else u.regs)
  }

  function Execute(cfg: Config, u: Unit, d: Dispatch): (Stop, nat) {
    var words := if |u.store| == MAX_PROGRAM_LEN then Fetched(u.store, |cfg.program|) else u.store;
    cfg.exec(words, d.warpId, d.resumePc)
  }

  // What the warp leaves in its registers is not the protocol's concern: any result will do.
  function DispatchedRun(cfg: Config, u: Unit, result: seq<Word>): Unit
    requires u.dispatches != []
  {
    var d := u.dispatches[0];
    var r := Execute(cfg, u, d);
    u.(dispatches := u.dispatches[1..], statuses := u.statuses + [Status(d.slot, r.0, r.1)],
       regs := if d.slot < |u.regs| && |result| == WORDS_PER_WARP then u.regs[d.slot := result] else u.regs,
       runs := if d.slot < |u.runs| then u.runs[d.slot := u.runs[d.slot] + 1] else u.runs)
  }

  function PipelinePass(cfg: Config, u: Unit, result: seq<Word>): Unit {
    if u.seeds != [] then SeedStep(u)
    else if u.dispatches != [] then DispatchedRun(cfg, u, result)
    else u
  }

  // ----- programLoader -----

  /** Even warps are read through the first register port, odd ones through the second. */
  function Initial(cfg: Config, c: nat, j: nat, i: nat): Word {
    var w := cfg.WarpId(cfg.Local(c, j));
    cfg.initial(w % 2, w * WORDS_PER_WARP + i)
  }

  function StoreWord(cfg: Config, k: nat, u: Unit): Unit {
    if k < |cfg.program| && k < |u.store| then u.(store := u.store[k := cfg.program[k]]) else u
  }

  function ProgramStep(cfg: Config, s: System): System {
    var l := s.loader;
    if l.loadIdx < MAX_PROGRAM_LEN then
      System(l.(loadIdx := l.loadIdx + 1), s.barrier,
             seq(|s.units|, c requires 0 <= c < |s.units| => StoreWord(cfg, l.loadIdx, s.units[c])))
    else s.(loader := l.(loaded := true))
  }

  predicate LastWord(l: Loader) { l.i + 1 >= WORDS_PER_WARP }

  predicate LastOfUnit(cfg: Config, l: Loader) { LastWord(l) && l.slot + 1 >= cfg.m }

  function Advance(cfg: Config, l: Loader): Loader {
    if !LastWord(l) then l.(i := l.i + 1)
    else if !LastOfUnit(cfg, l) then l.(i := 0, slot := l.slot + 1)
    else l.(i := 0, slot := 0, c := l.c + 1)
  }

  function SendSeed(cfg: Config, l: Loader, u: Unit): Unit {
    u.(seeds := if cfg.Resident(l.c, l.slot) then u.seeds + [Seed(l.slot, l.i, Initial(cfg, l.c, l.slot, l.i))] else u.seeds,
       tokens := if LastOfUnit(cfg, l) then u.tokens + 1 else u.tokens)
  }

  // A full seed stream blocks the loader: the pass has no effect yet.
  predicate Blocked(cfg: Config, l: Loader, u: Unit) {
    cfg.Resident(l.c, l.slot) && |u.seeds| >= cfg.seedDepth
  }

  function RegisterStep(cfg: Config, s: System): System {
    var l := s.loader;
    if l.c < |s.units| then
      if Blocked(cfg, l, s.units[l.c]) then s
      else System(Advance(cfg, l), s.barrier, s.units[l.c := SendSeed(cfg, l, s.units[l.c])])
    else s.(loader := l.(regsDone := true, c := 0, slot := 0, i := 0))
  }

  function LoaderPass(cfg: Config, s: System): System {
    if !s.loader.loaded then ProgramStep(cfg, s)
    else if !s.loader.regsDone then RegisterStep(cfg, s)
    else s
  }

  // ----- barrierCore -----

  // Broadcasts are atomic and signal streams unbounded here; Backpressure splits and
  // bounds them.

  function Head(code: Code, u: Unit): int { if u.events != [] && u.events[0] == code then 1 else 0 }
  function HeadStalled(u: Unit): int { Head(STALLED_AT_BARRIER, u) }
  function HeadCompleted(u: Unit): int { Head(COMPLETED, u) }

  function Popped(u: Unit): Unit { if u.events == [] then u else u.(events := u.events[1..]) }

  function Told(sig: Signal, u: Unit): Unit { u.(signals := u.signals + [sig]) }

  function Broadcast(sig: Signal, units: seq<Unit>): seq<Unit> {
    seq(|units|, c requires 0 <= c < |units| => Told(sig, units[c]))
  }

  function LaunchBarrier(cfg: Config, b: Barrier): Barrier {
    var launched := b.(total := cfg.total, stalled := 0, done := 0);
    if cfg.Faulty() then launched.(fault := true) else launched.(busy := true)
  }

  function Poll(s: System): System {
    s.(barrier := s.barrier.(stalled := s.barrier.stalled + Total(s.units, HeadStalled),
                             done := s.barrier.done + Total(s.units, HeadCompleted)),
       units := seq(|s.units|, c requires 0 <= c < |s.units| => Popped(s.units[c])))
  }

  predicate ReleaseReady(b: Barrier) { b.total != 0 && b.stalled == b.total }
  predicate KernelComplete(b: Barrier) { b.total != 0 && b.done == b.total }

  function ReleaseStep(s: System): System {
    if !ReleaseReady(s.barrier) then s
    else s.(barrier := s.barrier.(stalled := 0, releases := s.barrier.releases + 1), units := Broadcast(RELEASE, s.units))
  }

  function CompleteStep(s: System): System {
    if !KernelComplete(s.barrier) then s
    else s.(barrier := s.barrier.(busy := false, completed := true), units := Broadcast(KERNEL_DONE, s.units))
  }

  // One launch: once complete, the arbiter rests.
  function BarrierPass(cfg: Config, s: System): System {
    if s.barrier.completed then s
    else if !s.barrier.busy then s.(barrier := LaunchBarrier(cfg, s.barrier))
    else CompleteStep(ReleaseStep(Poll(s)))
  }

  /** Whether a broadcast is under way, and whose stream is next. */
  datatype Telling = Nobody | Telling(sig: Signal, next: nat)

  // ----- The system -----

  function Pass(cfg: Config, p: Process, s: System): System {
    match p
    case LOADER => LoaderPass(cfg, s)
    case ARBITER => BarrierPass(cfg, s)
    case SCHEDULER(c) => if c < |s.units| then s.(units := s.units[c := SchedulerPass(cfg, c, s.units[c])]) else s
    case PIPELINE(c, result) => if c < |s.units| then s.(units := s.units[c := PipelinePass(cfg, s.units[c], result)]) else s
  }

  /** Before `start`: nothing loaded, nothing resident, every stream empty;
      registers and program stores may hold anything. */
  predicate InitialUnit(cfg: Config, u: Unit) {
    && |u.slots| == cfg.m && (forall j :: 0 <= j < cfg.m ==> u.slots[j].state.EMPTY?)
    && !u.running && !u.busy && !u.launched
    && |u.regs| == cfg.m && (forall j :: 0 <= j < cfg.m ==> |u.regs[j]| == WORDS_PER_WARP)
    && |u.store| == MAX_PROGRAM_LEN
    && u.seeds == [] && u.tokens == 0 && u.dispatches == [] && u.statuses == [] && u.events == [] && u.signals == []
    && |u.runs| == cfg.m && (forall j :: 0 <= j < cfg.m ==> u.runs[j] == 0)
  }

  predicate InitialSystem(cfg: Config, s: System) {
    && s.loader == Loader(false, 0, false, 0, 0, 0)
    && s.barrier == Barrier(0, 0, 0, false, false, false, 0)
    && |s.units| == cfg.n
    && forall c :: 0 <= c < cfg.n ==> InitialUnit(cfg, s.units[c])
  }

  /** The state after a sequence of passes, in any order. */
  function After(cfg: Config, passes: seq<Process>, s: System): System
    decreases |passes|
  {
    if passes == [] then s else After(cfg, passes[1..], Pass(cfg, passes[0], s))
  }
}

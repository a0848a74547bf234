// The other processes of a launch as they run: the barrier arbiter
// (barrier_arbiter.h), the program loader (gpgpu_top.h:87-171) and the compute
// pipeline's seed-then-dispatch loop (compute_pipeline.cpp:285-342).

module LaunchUnits {
  import opened Isa
  import opened Warp
  import opened WarpUnits
  import opened Slots
  import opened Sums
  import opened Protocol
  import opened Backpressure

  lemma PollSignals(s: System)
    ensures forall c :: 0 <= c < |s.units| ==> Poll(s).units[c].signals == s.units[c].signals
  {
  }

  lemma HeadOf(u: Unit)
    ensures u.events == [] ==> HeadStalled(u) == HeadCompleted(u) == 0 && Popped(u).events == []
    ensures u.events != [] ==> HeadStalled(u) == (if u.events[0] == STALLED_AT_BARRIER then 1 else 0)
                               && HeadCompleted(u) == (if u.events[0] == COMPLETED then 1 else 0)
                               && Popped(u).events == u.events[1..]
  {
  }

  /** `barrierCoreN`: its counters, its outputs, one event and one signal stream per
      unit, and the broadcast it is in, for the write that may block it. */
  class BarrierCore {
    const cfg: Config
    const depth: nat
    var totalWarps: nat
    var stalledCount: int
    var doneCount: int
    var busy: bool
    var done: bool
    var fault: bool
    var telling: Telling
    const eventsIn: array<seq<Code>>
    const signalOut: array<seq<Signal>>

    constructor (cfg: Config, depth: nat)
      ensures this.cfg == cfg && this.depth == depth && fresh(eventsIn) && fresh(signalOut)
      ensures eventsIn.Length == signalOut.Length == cfg.n
      ensures totalWarps == 0 && stalledCount == doneCount == 0 && !busy && !done && !fault && telling == Nobody
      ensures forall c :: 0 <= c < cfg.n ==> eventsIn[c] == [] && signalOut[c] == []
    {
      this.cfg, this.depth := cfg, depth;
      totalWarps, stalledCount, doneCount, busy, done, fault, telling := 0, 0, 0, false, false, false, Nobody;
      eventsIn := new seq<Code>[cfg.n](_ => []);
      signalOut := new seq<Signal>[cfg.n](_ => []);
    }

    /** The arbiter's share of the system is what this object holds. */
    ghost predicate Shows(s: System)
      reads this, eventsIn, signalOut
    {
      && s.barrier.total == totalWarps && s.barrier.stalled == stalledCount && s.barrier.done == doneCount
      && s.barrier.busy == busy && s.barrier.completed == done && s.barrier.fault == fault
      && |s.units| == eventsIn.Length == signalOut.Length
      && (forall c :: 0 <= c < |s.units| ==> s.units[c].events == eventsIn[c])
      && forall c :: 0 <= c < |s.units| ==> s.units[c].signals == signalOut[c]
    }

    ghost predicate ShowsWired(s: Wired)
      reads this, eventsIn, signalOut
    {
      Shows(s.flat) && s.telling == telling
    }

    method OnEvent(code: Code)
      modifies this`doneCount, this`stalledCount
      ensures doneCount == old(doneCount) + (if code == COMPLETED then 1 else 0)
      ensures stalledCount == old(stalledCount) + (if code == STALLED_AT_BARRIER then 1 else 0)
    {
      if code == COMPLETED {
        doneCount := doneCount + 1;
      } else {
        stalledCount := stalledCount + 1;
      }
    }

    method PollEvents(ghost s: System)
      requires Shows(s)
      modifies this`doneCount, this`stalledCount, eventsIn
      ensures Shows(Poll(s))
    {
      hide HeadStalled, HeadCompleted, Popped;
      for c := 0 to eventsIn.Length
        invariant stalledCount == s.barrier.stalled + Total(s.units[..c], HeadStalled)
        invariant doneCount == s.barrier.done + Total(s.units[..c], HeadCompleted)
        invariant forall k :: 0 <= k < |s.units| ==> eventsIn[k] == if k < c then Popped(s.units[k]).events else s.units[k].events
      {
        TotalTake(s.units, c, HeadStalled);
        TotalTake(s.units, c, HeadCompleted);
        HeadOf(s.units[c]);
        if eventsIn[c] != [] {
          var code := eventsIn[c][0];
          eventsIn[c] := eventsIn[c][1..];
          OnEvent(code);
        }
      }
      assert s.units[..eventsIn.Length] == s.units;
      assert forall c :: 0 <= c < |s.units| ==> Poll(s).units[c].signals == s.units[c].signals by { PollSignals(s); }
    }

    method CheckRelease(ghost s: System) returns (due: bool)
      requires Shows(s) && telling == Nobody
      modifies this`stalledCount, this`telling
      ensures due == ReleaseReady(s.barrier)
      ensures due ==> ShowsWired(AnnounceRelease(s))
      ensures !due ==> Shows(s) && telling == Nobody
    {
      due := totalWarps != 0 && stalledCount == totalWarps;
      if due {
        stalledCount := 0;
        telling := Telling(RELEASE, 0);
      }
    }

    method CheckComplete(ghost s: System)
      requires Shows(s)
      modifies this`busy, this`done, this`telling
      ensures ShowsWired(AnnounceDone(s))
    {
      telling := Nobody;
      if totalWarps != 0 && doneCount == totalWarps {
        busy := false;
        done := true;
        telling := Telling(KERNEL_DONE, 0);
      }
    }

    /** From the top of a pass to its first write. */
    method Decide(start: bool, ghost s: System)
      requires Shows(s) && telling == Nobody
      modifies this, eventsIn
      ensures ShowsWired(DecideLoop(cfg, start, s))
    {
      hide Poll, Backpressure.AnnounceRelease, Backpressure.AnnounceDone;
      if !busy {
        if !start {
          return;
        }
        totalWarps := cfg.total;
        stalledCount := 0;
        doneCount := 0;
        if cfg.total > cfg.n * cfg.m {
          fault := true;
          return;
        }
        busy := true;
      } else {
        PollEvents(s);
        var due := CheckRelease(Poll(s));
        if !due {
          CheckComplete(Poll(s));
          NoRelease(Poll(s));
        }
      }
    }

    /** The next write of a broadcast, or what follows the last; true if the write has to wait. */
    method Write(ghost s: Wired) returns (blocked: bool)
      requires ShowsWired(s) && telling.Telling?
      modifies this`busy, this`done, this`telling, signalOut
      ensures ShowsWired(Tell(depth, s.flat, s.telling.sig, s.telling.next))
      ensures blocked ==> Tell(depth, s.flat, s.telling.sig, s.telling.next) == s && telling == old(telling)
      ensures !blocked && old(telling.next) < signalOut.Length ==> telling == Telling(old(telling.sig), old(telling.next) + 1)
      ensures old(telling.next) >= signalOut.Length ==>
                !blocked && (telling.Nobody? || (telling == Telling(KERNEL_DONE, 0) && old(telling.sig).release && !busy))
    {
      hide Backpressure.AnnounceDone;
      var sig, c := telling.sig, telling.next;
      blocked := false;
      if c >= signalOut.Length {
        if sig.release {
          CheckComplete(s.flat);
          DoneTelling(s.flat);
        } else {
          telling := Nobody;
        }
      } else if |signalOut[c]| >= depth {
        blocked := true;
      } else {
        signalOut[c] := signalOut[c] + [sig];
        telling := Telling(sig, c + 1);
      }
    }

    /** A pass of the endless loop, from where it stands to its end or the write that
        blocks it: steps of the arbiter. */
    method Run(start: bool, ghost s: Wired) returns (blocked: bool, ghost steps: nat)
      requires ShowsWired(s)
      modifies this, eventsIn, signalOut
      ensures ShowsWired(LoopAfter(cfg, depth, start, s, steps))
      ensures !blocked ==> telling == Nobody
    {
      hide DecideLoop, Tell, LoopAfter;
      steps, blocked := 0, false;
      LoopStarts(cfg, depth, start, s);
      if telling.Nobody? {
        Decide(start, s.flat);
        LoopSteps(cfg, depth, start, s, 0);
        steps := 1;
      }
      while telling.Telling?
        invariant ShowsWired(LoopAfter(cfg, depth, start, s, steps))
        decreases if telling.Nobody? then 0 else if telling.sig.release then 2 else 1,
                  if telling.Telling? && telling.next <= signalOut.Length then signalOut.Length + 1 - telling.next else 0
      {
        LoopSteps(cfg, depth, start, s, steps);
        blocked := Write(LoopAfter(cfg, depth, start, s, steps));
        steps := steps + 1;
        if blocked {
          return;
        }
      }
    }
  }

  lemma NoRelease(s: System)
    requires !ReleaseReady(s.barrier)
    ensures Backpressure.AnnounceRelease(s) == Backpressure.AnnounceDone(s)
  {
  }

  lemma DoneTelling(s: System)
    ensures var t := Backpressure.AnnounceDone(s).telling; t.Nobody? || t == Telling(KERNEL_DONE, 0)
    ensures Backpressure.AnnounceDone(s).telling.Telling? ==> !Backpressure.AnnounceDone(s).flat.barrier.busy
  {
  }

  /** The arbiter after some steps of its loop. */
  function LoopAfter(cfg: Config, depth: nat, start: bool, s: Wired, steps: nat): Wired {
    if steps == 0 then s else ArbiterLoop(cfg, depth, start, LoopAfter(cfg, depth, start, s, steps - 1))
  }

  lemma LoopStarts(cfg: Config, depth: nat, start: bool, s: Wired)
    ensures LoopAfter(cfg, depth, start, s, 0) == s
  {
  }

  lemma LoopSteps(cfg: Config, depth: nat, start: bool, s: Wired, steps: nat)
    ensures var t := LoopAfter(cfg, depth, start, s, steps);
            LoopAfter(cfg, depth, start, s, steps + 1)
            == if t.telling.Nobody? then DecideLoop(cfg, start, t.flat) else Tell(depth, t.flat, t.telling.sig, t.telling.next)
  {
    hide DecideLoop, Tell;
  }

  /** In a launch whose `start` is held until `done`, these are the arbiter's steps. */
  lemma LoopIsLaunch(cfg: Config, depth: nat, s: Wired)
    requires s.flat.barrier.completed ==> !s.flat.barrier.busy
    ensures ArbiterLoop(cfg, depth, !s.flat.barrier.completed, s) == ArbiterStep(cfg, depth, s)
  {
    hide Backpressure.AnnounceRelease, Poll, Tell;
  }

  /** `programLoader`: its position, and per unit a program store, a seed stream
      and a stream of loaded tokens. */
  class ProgramLoader {
    const cfg: Config
    const programPtr: seq<Word>
    const registerPtr: (nat, nat) -> Word
    var loaded: bool
    var loadIdx: nat
    var regsDone: bool
    var seedC: nat
    var seedSlot: nat
    var seedI: nat
    const stores: array2<Word>
    const seedOut: array<seq<Seed>>
    const loadedOut: array<nat>

    constructor (cfg: Config, stores: array2<Word>)
      requires stores.Length0 == cfg.n && stores.Length1 == MAX_PROGRAM_LEN
      ensures this.cfg == cfg && this.stores == stores && fresh(seedOut) && fresh(loadedOut) && Valid()
      ensures !loaded && loadIdx == 0 && !regsDone && seedC == seedSlot == seedI == 0
      ensures forall c :: 0 <= c < cfg.n ==> seedOut[c] == [] && loadedOut[c] == 0
    {
      this.cfg, this.stores, programPtr, registerPtr := cfg, stores, cfg.program, cfg.initial;
      loaded, loadIdx, regsDone, seedC, seedSlot, seedI := false, 0, false, 0, 0, 0;
      seedOut := new seq<Seed>[cfg.n](_ => []);
      loadedOut := new nat[cfg.n](_ => 0);
    }

    ghost predicate Valid() {
      && stores.Length0 == seedOut.Length == loadedOut.Length == cfg.n && stores.Length1 == MAX_PROGRAM_LEN
      && programPtr == cfg.program && registerPtr == cfg.initial
    }

    ghost function Position(): Loader
      reads this
    {
      Loader(loaded, loadIdx, regsDone, seedC, seedSlot, seedI)
    }

    ghost predicate StoreShows(c: nat, store: seq<Word>)
      requires Valid() && c < cfg.n
      reads stores
    {
      |store| == MAX_PROGRAM_LEN && forall k :: 0 <= k < MAX_PROGRAM_LEN ==> store[k] == stores[c, k]
    }

    /** The loader's share of the system is what this object holds. */
    ghost predicate Shows(s: System)
      requires Valid()
      reads this, stores, seedOut, loadedOut
    {
      && s.loader == Position() && |s.units| == cfg.n
      && (forall c :: 0 <= c < cfg.n ==> StoreShows(c, s.units[c].store))
      && (forall c :: 0 <= c < cfg.n ==> s.units[c].seeds == seedOut[c])
      && forall c :: 0 <= c < cfg.n ==> s.units[c].tokens == loadedOut[c]
    }

    // One program word to every unit.
    method LoadWord(ghost s: System)
      requires Valid() && Shows(s) && loadIdx < MAX_PROGRAM_LEN
      modifies this`loadIdx, stores
      ensures Shows(ProgramStep(cfg, s))
    {
      if loadIdx < |programPtr| {
        var instr := programPtr[loadIdx];
        for c := 0 to cfg.n
          modifies stores
          invariant forall d, k :: 0 <= d < cfg.n && 0 <= k < MAX_PROGRAM_LEN ==>
            stores[d, k] == if d < c && k == loadIdx then instr else s.units[d].store[k]
        {
          stores[c, loadIdx] := instr;
        }
      }
      loadIdx := loadIdx + 1;
    }

    /** Warp g's word i was read from its place in the buffer and sent last, if there is such a warp. */
    ghost predicate SentFor(c: nat, slot: nat, i: nat)
      requires c < seedOut.Length
      reads seedOut
    {
      var g := (cfg.offset + c + slot * cfg.n) % 0x1_0000_0000;
      c + slot * cfg.n < cfg.total ==>
        seedOut[c] != [] && seedOut[c][|seedOut[c]| - 1] == Seed(slot, i, registerPtr(g % 2, g * 1024 + i))
    }

    // One register word to the unit in turn, if the slot in turn has a warp.
    method SendWord()
      requires Valid() && seedC < cfg.n
      modifies seedOut
      ensures seedOut[..] ==
              if cfg.Resident(seedC, seedSlot)
              then old(seedOut[..])[seedC := old(seedOut[seedC]) + [Seed(seedSlot, seedI, Initial(cfg, seedC, seedSlot, seedI))]]
              else old(seedOut[..])
      ensures SentFor(seedC, seedSlot, seedI)
    {
      var local := cfg.Local(seedC, seedSlot);
      if local < cfg.total {
        var w := cfg.WarpId(local);
        var base := w * WORDS_PER_WARP;
        seedOut[seedC] := seedOut[seedC] + [Seed(seedSlot, seedI, registerPtr(w % 2, base + seedI))];
        assert cfg.offset + local == cfg.offset + seedC + seedSlot * cfg.n;
        assert seedOut[seedC][|seedOut[seedC]| - 1] == Seed(seedSlot, seedI, registerPtr(w % 2, w * 1024 + seedI));
      }
    }

    // On to the next word, slot or unit; a unit's last word sends its token.
    method Step()
      requires Valid() && seedC < cfg.n
      modifies this`seedC, this`seedSlot, this`seedI, loadedOut
      ensures Position() == Advance(cfg, old(Position()))
      ensures loadedOut[..] == old(loadedOut[..])[old(seedC) := old(loadedOut[seedC]) + if LastOfUnit(cfg, old(Position())) then 1 else 0]
    {
      seedI := seedI + 1;
      if seedI >= WORDS_PER_WARP {
        seedI := 0;
        seedSlot := seedSlot + 1;
        if seedSlot >= cfg.m {
          seedSlot := 0;
          loadedOut[seedC] := loadedOut[seedC] + 1;
          seedC := seedC + 1;
        }
      }
    }

    method SeedWord(ghost s: System)
      requires Valid() && Shows(s) && seedC < cfg.n
      modifies this`seedC, this`seedSlot, this`seedI, seedOut, loadedOut
      ensures var l := s.loader;
              Shows(System(Advance(cfg, l), s.barrier, s.units[l.c := SendSeed(cfg, l, s.units[l.c])]))
      ensures SentFor(old(seedC), old(seedSlot), old(seedI))
    {
      hide Advance, Initial, LastOfUnit, SentFor;
      ghost var l := s.loader;
      SendWord();
      assert seedOut[..][l.c] == SendSeed(cfg, l, s.units[l.c]).seeds;
      assert forall c :: 0 <= c < cfg.n && c != l.c ==> seedOut[c] == seedOut[..][c] == s.units[c].seeds;
      assert SentFor(l.c, l.slot, l.i);
      Step();
      assert loadedOut[..][l.c] == SendSeed(cfg, l, s.units[l.c]).tokens;
      assert forall c :: 0 <= c < cfg.n && c != l.c ==> loadedOut[c] == loadedOut[..][c] == s.units[c].tokens;
    }

    /** One pass while `start` is held; a full seed stream makes it wait. */
    method Pass(ghost s: System)
      requires Valid() && Shows(s)
      modifies this, stores, seedOut, loadedOut
      ensures Shows(LoaderPass(cfg, s))
    {
      hide ProgramStep, SendSeed, Advance;
      if !loaded {
        if loadIdx < MAX_PROGRAM_LEN {
          LoadWord(s);
        } else {
          loaded := true;
          assert ProgramStep(cfg, s) == s.(loader := s.loader.(loaded := true)) by { LoadedStep(cfg, s); }
        }
      } else if !regsDone {
        if seedC < cfg.n {
          if cfg.Local(seedC, seedSlot) < cfg.total && |seedOut[seedC]| >= cfg.seedDepth {
            return;
          }
          SeedWord(s);
        } else {
          regsDone, seedC, seedSlot, seedI := true, 0, 0, 0;
        }
      }
    }
  }

  lemma LoadedStep(cfg: Config, s: System)
    requires s.loader.loadIdx >= MAX_PROGRAM_LEN
    ensures ProgramStep(cfg, s) == s.(loader := s.loader.(loaded := true))
  {
  }

  // ----- The pipeline -----

  /** Registers of one slot in seed order. */
  ghost function Flat(regs: array2<Word>): seq<Word>
    requires IsRegFile(regs)
    reads regs
  {
    seq(WORDS_PER_WARP, i requires 0 <= i < WORDS_PER_WARP reads regs => regs[i / REGS_PER_THREAD, i % REGS_PER_THREAD])
  }

  /** Word t * 32 + r of a slot is register r of its thread t. */
  lemma FlatPlaces(regs: array2<Word>, t: nat, r: nat)
    requires IsRegFile(regs) && t < 32 && r < 32
    ensures t * 32 + r < |Flat(regs)| && Flat(regs)[t * 32 + r] == regs[t, r]
  {
    assert (t * 32 + r) / 32 == t && (t * 32 + r) % 32 == r;
  }

  /** `compute_pipeline` of one unit: a register buffer per slot, the program
      store, its streams, and its memory port. */
  class ComputePipeline {
    const cfg: Config
    const ops: Ops
    const vectors: bool
    const regs: seq<array2<Word>>
    const program: array<Word>
    const port: MemoryPort
    var seedIn: seq<Seed>
    var dispatchIn: seq<Dispatch>
    var statusOut: seq<Status>

    constructor (cfg: Config, ops: Ops, vectors: bool, regs: seq<array2<Word>>, program: array<Word>, port: MemoryPort)
      requires |regs| == cfg.m && program.Length == MAX_PROGRAM_LEN
      requires forall j :: 0 <= j < |regs| ==> IsRegFile(regs[j])
      requires forall j, k :: 0 <= j < k < |regs| ==> regs[j] != regs[k]
      ensures this.cfg == cfg && this.ops == ops && this.vectors == vectors && this.regs == regs && this.program == program && this.port == port
      ensures Valid() && seedIn == [] && dispatchIn == [] && statusOut == []
    {
      this.cfg, this.ops, this.vectors, this.regs, this.program, this.port := cfg, ops, vectors, regs, program, port;
      seedIn, dispatchIn, statusOut := [], [], [];
    }

    ghost predicate Valid() {
      && |regs| == cfg.m && program.Length == MAX_PROGRAM_LEN
      && (forall j :: 0 <= j < |regs| ==> IsRegFile(regs[j]))
      && forall j, k :: 0 <= j < k < |regs| ==> regs[j] != regs[k]
    }

    /** The pipeline's share of unit `u` is what this object holds. */
    ghost predicate Shows(u: Unit)
      requires Valid()
      reads this, regs, program
    {
      && |u.regs| == cfg.m && (forall j :: 0 <= j < cfg.m ==> u.regs[j] == Flat(regs[j]))
      && u.store == program[..] && u.seeds == seedIn && u.dispatches == dispatchIn && u.statuses == statusOut
    }

    method TakeSeed(ghost u: Unit)
      requires Valid() && Shows(u) && seedIn != [] && seedIn[0].slot < cfg.m && seedIn[0].i < WORDS_PER_WARP
      modifies this`seedIn, regs
      ensures Shows(SeedStep(u))
    {
      var s := seedIn[0];
      seedIn := seedIn[1..];
      var file := regs[s.slot];
      file[s.i / REGS_PER_THREAD, s.i % REGS_PER_THREAD] := s.value;
      assert Flat(file) == old(Flat(file))[s.i := s.value];
    }

    /** What a dispatch leaves in the registers of its slot. */
    ghost function Outcome(d: Dispatch): (Stop, nat, Hls)
      requires Valid() && d.slot < cfg.m
      reads regs, program, port
    {
      HlsRun(ops, port.env, vectors, Fetched(program[..], |cfg.program|), d.resumePc,
             Hls(Data(RegsOf(regs[d.slot]), port.trace), HlsFresh()))
    }

    method RunDispatch(ghost u: Unit)
      requires Valid() && Shows(u) && dispatchIn != [] && dispatchIn[0].slot < cfg.m
      requires forall words, w, pc :: cfg.exec(words, w, pc) == NextStop(words, pc)
      modifies this`dispatchIn, this`statusOut, regs, port
      ensures Shows(DispatchedRun(cfg, u, Flat(regs[old(dispatchIn[0]).slot])))
      ensures RegsOf(regs[old(dispatchIn[0]).slot]) == old(Outcome(dispatchIn[0])).2.d.regs
      ensures port.trace == old(Outcome(dispatchIn[0])).2.d.trace
    {
      hide NextStop, HlsRun, Fetched, RegsOf;
      var d := dispatchIn[0];
      dispatchIn := dispatchIn[1..];
      ghost var start := Hls(Data(RegsOf(regs[d.slot]), port.trace), HlsFresh());
      StopIsStatic(ops, port.env, vectors, Fetched(program[..], |cfg.program|), d.resumePc, start);
      var stop, pc := ExecuteOneWarp(ops, vectors, program, |cfg.program|, d.resumePc, regs[d.slot], port);
      statusOut := statusOut + [Status(d.slot, stop, pc)];
    }

    /** One pass of the endless loop: seeds first, then dispatches. */
    method Pass(ghost u: Unit) returns (ghost result: seq<Word>)
      requires Valid() && Shows(u)
      requires forall k :: 0 <= k < |seedIn| ==> seedIn[k].slot < cfg.m && seedIn[k].i < WORDS_PER_WARP
      requires forall k :: 0 <= k < |dispatchIn| ==> dispatchIn[k].slot < cfg.m
      requires forall words, w, pc :: cfg.exec(words, w, pc) == NextStop(words, pc)
      modifies this, regs, port
      ensures Shows(PipelinePass(cfg, u, result))
    {
      hide SeedStep, DispatchedRun;
      result := [];
      if seedIn != [] {
        TakeSeed(u);
      } else if dispatchIn != [] {
        var slot := dispatchIn[0].slot;
        RunDispatch(u);
        result := Flat(regs[slot]);
      }
    }
  }
}

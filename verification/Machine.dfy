// Compute units with their memory, against the golden units with theirs: encoded
// words over the hardware caches, logical instructions over the golden hierarchy.

module Machine {
  import opened Isa
  import opened Simt
  import opened Warp
  import opened Refinement
  import opened Memory
  import opened HostMemory

  // ----- Memory as a running warp sees it -----

  function ByteAddress(op: MemOp): nat { op.addr as nat }

  /** A warp's requests as unit c issues them. */
  function Traffic(c: nat, trace: seq<MemOp>): seq<Memory.Request> {
    seq(|trace|, i requires 0 <= i < |trace| => Memory.Request(c, ByteAddress(trace[i]), trace[i].write, trace[i].data))
  }

  function Last(answers: seq<Word>): Word { if answers == [] then 0 else answers[|answers| - 1] }

  predicate Serves(m: Subsystem, c: nat) { Ready(m) && c < |m.l1| }

  /** The subsystem's answer to the last of a warp's requests, if m was its state before the first. */
  function HardwareAnswer(m: Subsystem, c: nat, trace: seq<MemOp>): Word
    requires Serves(m, c)
  {
    Last(Answers(m, Traffic(c, trace)))
  }

  function HardwareEnv(m: Subsystem, c: nat): Env
    requires Serves(m, c)
  {
    (trace: seq<MemOp>) => HardwareAnswer(m, c, trace)
  }

  function GoldenAnswer(h: Hierarchy, c: nat, trace: seq<MemOp>): Word {
    Last(GoldenAnswers(h, Traffic(c, trace)))
  }

  function GoldenEnv(h: Hierarchy, c: nat): Env {
    (trace: seq<MemOp>) => GoldenAnswer(h, c, trace)
  }

  function HardwareAfter(m: Subsystem, rs: seq<Memory.Request>): Subsystem
    requires Ready(m) && InRange(|m.l1|, rs)
    decreases |rs|
  {
    if rs == [] then m
    else
      ReadyKept(m, rs[0]);
      HardwareAfter(Handle(m, rs[0]).0, rs[1..])
  }

  function GoldenAfter(h: Hierarchy, rs: seq<Memory.Request>): Hierarchy
    decreases |rs|
  {
    if rs == [] then h else GoldenAfter(GoldenHandle(h, rs[0]).0, rs[1..])
  }

  /** The subsystem and the golden memory hold the same words; stale cached words are known. */
  ghost predicate MemoriesAgree(m: Subsystem, stale: Stale, h: Hierarchy) {
    && Ready(m) && Memory.Coherent(m, stale) && |stale| == |m.l1|
    && Consistent(h) && SameMemory(m.global, h)
  }

  predicate AllOutside(h: Hierarchy, rs: seq<Memory.Request>) {
    forall i :: 0 <= i < |rs| ==> OutsideWindows(h, rs[i])
  }

  lemma {:induction false} MemoriesStay(m: Subsystem, stale: Stale, h: Hierarchy, rs: seq<Memory.Request>)
    requires MemoriesAgree(m, stale, h) && InRange(|m.l1|, rs) && AllOutside(h, rs)
    ensures MemoriesAgree(HardwareAfter(m, rs), StaleThrough(m, stale, rs), GoldenAfter(h, rs))
    ensures GoldenAfter(h, rs).sharedSize == h.sharedSize && |HardwareAfter(m, rs).l1| == |m.l1|
    decreases |rs|
  {
    hide Coherent, Handle, FlatHandle, StaleAfter, ReadsStale, GoldenHandle, SameMemory, Consistent, IsShared, InWindow;
    if rs != [] {
      var r := rs[0];
      HandleCoherent(m, stale, r);
      ReadyKept(m, r);
      StaleCount(m, stale, r);
      SameStep(FlatOf(m), h, r);
      OutsideStays(h, GoldenHandle(h, r).0, rs[1..]);
      MemoriesStay(Handle(m, r).0, StaleAfter(m, stale, r), GoldenHandle(h, r).0, rs[1..]);
    }
  }

  lemma OutsideStays(h: Hierarchy, h': Hierarchy, rs: seq<Memory.Request>)
    requires AllOutside(h, rs) && h'.sharedSize == h.sharedSize
    ensures AllOutside(h', rs)
  {
  }

  // ----- A run depends on memory only through its own requests -----

  ghost predicate AgreeOn(e: Env, e': Env, trace: seq<MemOp>) {
    forall k :: 0 <= k <= |trace| ==> e(trace[..k]) == e'(trace[..k])
  }

  lemma AgreeSooner(e: Env, e': Env, part: seq<MemOp>, trace: seq<MemOp>)
    requires part <= trace && AgreeOn(e, e', trace)
    ensures AgreeOn(e, e', part) && e(part) == e'(part)
  {
    assert part == trace[..|part|];
    forall k | 0 <= k <= |part| ensures e(part[..k]) == e'(part[..k]) {
      assert part[..k] == trace[..k];
    }
  }

  lemma {:induction false} SameLanes(wide: bool, e: Env, e': Env, i: Instruction, d: Data, mask: Mask, t: nat)
    requires t <= THREADS_PER_WARP && AgreeOn(e, e', MemLanes(wide, e, i, d, mask, t).trace)
    ensures MemLanes(wide, e', i, d, mask, t) == MemLanes(wide, e, i, d, mask, t)
    decreases THREADS_PER_WARP - t
  {
    hide Warp.Request, AgreeOn;
    if t < THREADS_PER_WARP {
      var next := if t in mask then MemLane(wide, e, i, t, d) else d;
      if t in mask {
        TraceGrows(wide, e, i, next, mask, t + 1);
        AgreeSooner(e, e', next.trace, MemLanes(wide, e, i, d, mask, t).trace);
      }
      SameLanes(wide, e, e', i, next, mask, t + 1);
    }
  }

  lemma ExecGrows(ops: Ops, e: Env, vectors: bool, i: Instruction, h: Hls)
    ensures h.d.trace <= HlsExec(ops, e, vectors, i, h).d.trace
  {
    hide MemLanes, ArithLanes, BoundedBranch, BoundedJoin;
    TraceGrows(false, e, i, h.d, h.simt.s.mask, 0);
  }

  lemma {:induction false} RunGrows(ops: Ops, e: Env, vectors: bool, words: seq<Word>, pc: nat, h: Hls)
    ensures h.d.trace <= HlsRun(ops, e, vectors, words, pc, h).2.d.trace
    decreases |words| - pc
  {
    hide HlsExec, Codec.Decode;
    if pc < |words| {
      var i := Codec.Decode(words[pc]);
      if !i.opcode.HALT? && !i.opcode.BARRIER? {
        ExecGrows(ops, e, vectors, i, h);
        RunGrows(ops, e, vectors, words, pc + 1, HlsExec(ops, e, vectors, i, h));
      }
    }
  }

  lemma SameExec(ops: Ops, e: Env, e': Env, vectors: bool, i: Instruction, h: Hls)
    requires AgreeOn(e, e', HlsExec(ops, e, vectors, i, h).d.trace)
    ensures HlsExec(ops, e', vectors, i, h) == HlsExec(ops, e, vectors, i, h)
  {
    hide MemLanes, ArithLanes, BoundedBranch, BoundedJoin, AgreeOn;
    if i.opcode.IsMemory() && !i.opcode.VBRANCH? && !i.opcode.VJOIN? {
      SameLanes(false, e, e', i, h.d, h.simt.s.mask, 0);
    }
  }

  lemma {:induction false} SameRun(ops: Ops, e: Env, e': Env, vectors: bool, words: seq<Word>, pc: nat, h: Hls)
    requires AgreeOn(e, e', HlsRun(ops, e, vectors, words, pc, h).2.d.trace)
    ensures HlsRun(ops, e', vectors, words, pc, h) == HlsRun(ops, e, vectors, words, pc, h)
    decreases |words| - pc
  {
    hide HlsExec, Codec.Decode, AgreeOn;
    if pc < |words| {
      var i := Codec.Decode(words[pc]);
      if !i.opcode.HALT? && !i.opcode.BARRIER? {
        var next := HlsExec(ops, e, vectors, i, h);
        RunGrows(ops, e, vectors, words, pc + 1, next);
        AgreeSooner(e, e', next.d.trace, HlsRun(ops, e, vectors, words, pc, h).2.d.trace);
        SameExec(ops, e, e', vectors, i, h);
        SameRun(ops, e, e', vectors, words, pc + 1, next);
      }
    }
  }

  lemma {:induction false} FreshPrefix(m: Subsystem, stale: Stale, rs: seq<Memory.Request>, k: nat)
    requires Ready(m) && InRange(|m.l1|, rs) && |stale| == |m.l1| && Fresh(m, stale, rs) && k <= |rs|
    ensures Fresh(m, stale, rs[..k])
    decreases |rs|
  {
    hide Handle, StaleAfter, ReadsStale;
    if k > 0 {
      assert rs[..k][1..] == rs[1..][..k - 1];
      ReadyKept(m, rs[0]);
      StaleCount(m, stale, rs[0]);
      FreshPrefix(Handle(m, rs[0]).0, StaleAfter(m, stale, rs[0]), rs[1..], k - 1);
    }
  }

  /** Caches do not show: on requests outside both windows that read nothing stale,
      the two memories answer alike. */
  lemma AnswersAgree(m: Subsystem, stale: Stale, c: nat, h: Hierarchy, trace: seq<MemOp>)
    requires MemoriesAgree(m, stale, h) && c < |m.l1| && AllOutside(h, Traffic(c, trace)) && Fresh(m, stale, Traffic(c, trace))
    ensures AgreeOn(GoldenEnv(h, c), HardwareEnv(m, c), trace)
  {
    hide Coherent, SameMemory, Consistent, GoldenAnswers, Answers, OutsideWindows, Last, Fresh;
    forall k | 0 <= k <= |trace| ensures HardwareAnswer(m, c, trace[..k]) == GoldenAnswer(h, c, trace[..k]) {
      assert Traffic(c, trace[..k]) == Traffic(c, trace)[..k];
      FreshPrefix(m, stale, Traffic(c, trace), k);
      FreshParity(m, stale, h, Traffic(c, trace[..k]));
    }
  }

  // ----- The two machines -----

  datatype GoldenWarp = GoldenWarp(pc: nat, regs: RegFile, simt: State)
  datatype GoldenMachine = GoldenMachine(warps: seq<GoldenWarp>, memory: Hierarchy)

  datatype HlsWarp = HlsWarp(pc: nat, regs: RegFile)
  datatype HlsMachine = HlsMachine(warps: seq<HlsWarp>, memory: Subsystem)

  function GoldenDispatch(ops: Ops, program: seq<Instruction>, c: nat, s: GoldenMachine, w: nat): (GoldenMachine, Outcome)
    requires w < |s.warps|
  {
    var was := s.warps[w];
    var (stop, next, g) := GoldenRun(ops, GoldenEnv(s.memory, c), program, was.pc, GoldenStart(was.regs, was.simt));
    (GoldenMachine(s.warps[w := GoldenWarp(next, g.d.regs, g.simt)], GoldenAfter(s.memory, Traffic(c, g.d.trace))),
     Outcome(stop, next, g.d.regs, g.d.trace))
  }

  function HlsDispatch(ops: Ops, vectors: bool, words: seq<Word>, c: nat, s: HlsMachine, w: nat): (HlsMachine, Outcome)
    requires w < |s.warps| && Serves(s.memory, c)
  {
    var was := s.warps[w];
    var (stop, next, h) := HlsRun(ops, HardwareEnv(s.memory, c), vectors, words, was.pc, HlsStart(was.regs));
    (HlsMachine(s.warps[w := HlsWarp(next, h.d.regs)], HardwareAfter(s.memory, Traffic(c, h.d.trace))),
     Outcome(stop, next, h.d.regs, h.d.trace))
  }

  ghost predicate WarpsLinked(program: seq<Instruction>, g: GoldenWarp, h: HlsWarp) {
    && g.pc <= |program| && h.pc == Pos(program, g.pc) && h.regs == g.regs
    && Within(g.simt.stack, AllLanes(THREADS_PER_WARP))
  }

  ghost predicate Linked(program: seq<Instruction>, gs: GoldenMachine, hs: HlsMachine, stale: Stale) {
    && |gs.warps| == |hs.warps|
    && (forall w :: 0 <= w < |gs.warps| ==> WarpsLinked(program, gs.warps[w], hs.warps[w]))
    && MemoriesAgree(hs.memory, stale, gs.memory)
  }

  /** The golden dispatch stays where the port is faithful, and outside both shared windows. */
  ghost predicate DispatchOk(ops: Ops, vectors: bool, program: seq<Instruction>, c: nat, s: GoldenMachine, w: nat)
    requires w < |s.warps|
  {
    var was := s.warps[w];
    && RunOk(ops, GoldenEnv(s.memory, c), vectors, program, was.pc, GoldenStart(was.regs, was.simt), 0)
    && AllOutside(s.memory, Traffic(c, GoldenDispatch(ops, program, c, s, w).1.trace))
  }

  /** None of the dispatch's loads finds a word in unit c's cache that another unit has stored since. */
  predicate ReadsFresh(ops: Ops, program: seq<Instruction>, c: nat, gs: GoldenMachine, m: Subsystem, stale: Stale, w: nat)
    requires w < |gs.warps| && Serves(m, c) && |stale| == |m.l1|
  {
    Fresh(m, stale, Traffic(c, GoldenDispatch(ops, program, c, gs, w).1.trace))
  }

  function StaleNext(ops: Ops, program: seq<Instruction>, c: nat, gs: GoldenMachine, m: Subsystem, stale: Stale, w: nat): Stale
    requires w < |gs.warps| && Serves(m, c) && |stale| == |m.l1|
  {
    StaleThrough(m, stale, Traffic(c, GoldenDispatch(ops, program, c, gs, w).1.trace))
  }

  /** One dispatch of one warp on one unit: the same outcome, and machines that still agree. */
  lemma DispatchLinked(ops: Ops, vectors: bool, program: seq<Instruction>, c: nat,
                       gs: GoldenMachine, hs: HlsMachine, stale: Stale, w: nat)
    requires Linked(program, gs, hs, stale) && w < |gs.warps| && c < |hs.memory.l1| && DispatchOk(ops, vectors, program, c, gs, w)
    requires Serves(hs.memory, c) && |stale| == |hs.memory.l1| && ReadsFresh(ops, program, c, gs, hs.memory, stale, w)
    ensures var g := GoldenDispatch(ops, program, c, gs, w);
            var h := HlsDispatch(ops, vectors, Assembled(program), c, hs, w);
            SameOutcome(program, g.1, h.1) && |h.0.memory.l1| == |hs.memory.l1|
            && Linked(program, g.0, h.0, StaleNext(ops, program, c, gs, hs.memory, stale, w))
  {
    hide Assembled, Pos, InStep, RunOk, GoldenRun, HlsRun, GoldenStart, HlsStart, Within, GoldenEnv, HardwareEnv,
         MemoriesAgree, AllOutside, Traffic, AllLanes, Fresh, StaleThrough, Serves;
    var was, had := gs.warps[w], hs.warps[w];
    assert WarpsLinked(program, was, had);
    var e, e', words := GoldenEnv(gs.memory, c), HardwareEnv(hs.memory, c), Assembled(program);
    var g, h := GoldenStart(was.regs, was.simt), HlsStart(had.regs);
    StartInStep(was.regs, was.simt);
    var left, depth := RunAgrees(ops, e, vectors, program, was.pc, g, h, was.simt.stack, was.simt.events, was.simt.wasted, 0);
    var (stop, next, g') := GoldenRun(ops, e, program, was.pc, g);
    var (_, _, h') := HlsRun(ops, e, vectors, words, had.pc, h);
    SameData(g', h', left, was.simt.events, was.simt.wasted, depth);
    EndWithin(g', h', left, was.simt.events, was.simt.wasted, depth);
    AnswersAgree(hs.memory, stale, c, gs.memory, g'.d.trace);
    SameRun(ops, e, e', vectors, words, had.pc, h);
    TrafficFrom(c, g'.d.trace, |hs.memory.l1|);
    MemoriesStay(hs.memory, stale, gs.memory, Traffic(c, g'.d.trace));
  }

  lemma Serving(m: Subsystem, stale: Stale, c: nat, h: Hierarchy)
    requires MemoriesAgree(m, stale, h) && c < |m.l1|
    ensures Serves(m, c) && |stale| == |m.l1|
  {
  }

  lemma TrafficFrom(c: nat, trace: seq<MemOp>, n: nat)
    ensures OnlyFrom(c, Traffic(c, trace)) && (c < n ==> InRange(n, Traffic(c, trace)))
  {
  }

  // ----- Any schedule of dispatches -----

  /** Warp w is dispatched on unit c. */
  datatype Turn = Turn(c: nat, w: nat)

  predicate Possible(warps: nat, units: nat, order: seq<Turn>) {
    forall i :: 0 <= i < |order| ==> order[i].w < warps && order[i].c < units
  }

  function GoldenReports(ops: Ops, program: seq<Instruction>, s: GoldenMachine, order: seq<Turn>, units: nat): seq<Outcome>
    requires Possible(|s.warps|, units, order)
    decreases |order|
  {
    if order == [] then []
    else
      var t := GoldenDispatch(ops, program, order[0].c, s, order[0].w);
      [t.1] + GoldenReports(ops, program, t.0, order[1..], units)
  }

  function GoldenEnd(ops: Ops, program: seq<Instruction>, s: GoldenMachine, order: seq<Turn>, units: nat): GoldenMachine
    requires Possible(|s.warps|, units, order)
    decreases |order|
  {
    if order == [] then s
    else GoldenEnd(ops, program, GoldenDispatch(ops, program, order[0].c, s, order[0].w).0, order[1..], units)
  }

  lemma {:induction false} ReadyOn(m: Subsystem, rs: seq<Memory.Request>)
    requires Ready(m) && InRange(|m.l1|, rs)
    ensures Ready(HardwareAfter(m, rs)) && |HardwareAfter(m, rs).l1| == |m.l1|
    decreases |rs|
  {
    hide Handle;
    if rs != [] {
      ReadyKept(m, rs[0]);
      ReadyOn(Handle(m, rs[0]).0, rs[1..]);
    }
  }

  function HlsStep(ops: Ops, vectors: bool, words: seq<Word>, s: HlsMachine, turn: Turn): (t: (HlsMachine, Outcome))
    requires turn.w < |s.warps| && Serves(s.memory, turn.c)
    ensures Ready(t.0.memory) && |t.0.memory.l1| == |s.memory.l1| && |t.0.warps| == |s.warps|
  {
    var t := HlsDispatch(ops, vectors, words, turn.c, s, turn.w);
    ReadyOn(s.memory, Traffic(turn.c, t.1.trace));
    t
  }

  function HlsReports(ops: Ops, vectors: bool, words: seq<Word>, s: HlsMachine, order: seq<Turn>): seq<Outcome>
    requires Ready(s.memory) && Possible(|s.warps|, |s.memory.l1|, order)
    decreases |order|
  {
    if order == [] then []
    else
      var t := HlsStep(ops, vectors, words, s, order[0]);
      [t.1] + HlsReports(ops, vectors, words, t.0, order[1..])
  }

  function HlsEnd(ops: Ops, vectors: bool, words: seq<Word>, s: HlsMachine, order: seq<Turn>): HlsMachine
    requires Ready(s.memory) && Possible(|s.warps|, |s.memory.l1|, order)
    decreases |order|
  {
    if order == [] then s else HlsEnd(ops, vectors, words, HlsStep(ops, vectors, words, s, order[0]).0, order[1..])
  }

  /** Every dispatch of the golden schedule is one the port is faithful on. */
  ghost predicate ScheduleOk(ops: Ops, vectors: bool, program: seq<Instruction>, s: GoldenMachine, order: seq<Turn>, units: nat)
    requires Possible(|s.warps|, units, order)
    decreases |order|
  {
    order == [] || (DispatchOk(ops, vectors, program, order[0].c, s, order[0].w)
                    && ScheduleOk(ops, vectors, program, GoldenDispatch(ops, program, order[0].c, s, order[0].w).0, order[1..], units))
  }

  /** No dispatch of the schedule reads a stale word. */
  predicate ScheduleFresh(ops: Ops, vectors: bool, program: seq<Instruction>, gs: GoldenMachine, hs: HlsMachine, stale: Stale, order: seq<Turn>)
    requires |gs.warps| == |hs.warps| && Ready(hs.memory) && Possible(|gs.warps|, |hs.memory.l1|, order)
    decreases |order|
  {
    if order == [] then true
    else
      var turn := order[0];
      && |stale| == |hs.memory.l1| && ReadsFresh(ops, program, turn.c, gs, hs.memory, stale, turn.w)
      && ScheduleFresh(ops, vectors, program, GoldenDispatch(ops, program, turn.c, gs, turn.w).0,
                       HlsStep(ops, vectors, Assembled(program), hs, turn).0,
                       StaleNext(ops, program, turn.c, gs, hs.memory, stale, turn.w), order[1..])
  }

  /** Whatever order warps are dispatched in, on whatever units, with every stall and
      resume: as long as nothing stale is read, the units on encoded words behind their
      caches report what the golden units report, and the memories end with the same words. */
  lemma {:induction false} MachinesAgree(ops: Ops, vectors: bool, program: seq<Instruction>,
                                         gs: GoldenMachine, hs: HlsMachine, stale: Stale, order: seq<Turn>)
    requires Linked(program, gs, hs, stale) && Ready(hs.memory) && Possible(|gs.warps|, |hs.memory.l1|, order)
    requires ScheduleOk(ops, vectors, program, gs, order, |hs.memory.l1|)
    requires ScheduleFresh(ops, vectors, program, gs, hs, stale, order)
    ensures var gr := GoldenReports(ops, program, gs, order, |hs.memory.l1|);
            var hr := HlsReports(ops, vectors, Assembled(program), hs, order);
            |hr| == |gr| && forall k :: 0 <= k < |gr| ==> SameOutcome(program, gr[k], hr[k])
    ensures SameMemory(HlsEnd(ops, vectors, Assembled(program), hs, order).memory.global,
                       GoldenEnd(ops, program, gs, order, |hs.memory.l1|).memory)
    decreases |order|
  {
    hide Assembled, GoldenDispatch, HlsDispatch, DispatchOk, SameOutcome, WarpsLinked, MemoriesAgree, SameMemory, ReadsFresh, StaleNext;
    if order != [] {
      var turn := order[0];
      DispatchLinked(ops, vectors, program, turn.c, gs, hs, stale, turn.w);
      var g, h := GoldenDispatch(ops, program, turn.c, gs, turn.w).0, HlsStep(ops, vectors, Assembled(program), hs, turn).0;
      MachinesAgree(ops, vectors, program, g, h, StaleNext(ops, program, turn.c, gs, hs.memory, stale, turn.w), order[1..]);
    } else {
      SameWords(hs.memory, stale, gs.memory);
    }
  }

  lemma SameWords(m: Subsystem, stale: Stale, h: Hierarchy)
    requires MemoriesAgree(m, stale, h)
    ensures SameMemory(m.global, h)
  {
  }

  /** A unit that is alone reads nothing stale: its schedules need no such condition. */
  lemma {:induction false} AloneScheduleFresh(ops: Ops, vectors: bool, program: seq<Instruction>, c: nat,
                                              gs: GoldenMachine, hs: HlsMachine, stale: Stale, order: seq<Turn>)
    requires Linked(program, gs, hs, stale) && Ready(hs.memory) && Possible(|gs.warps|, |hs.memory.l1|, order)
    requires ScheduleOk(ops, vectors, program, gs, order, |hs.memory.l1|)
    requires c < |hs.memory.l1| == |stale| && stale[c] == {} && forall i :: 0 <= i < |order| ==> order[i].c == c
    ensures ScheduleFresh(ops, vectors, program, gs, hs, stale, order)
    decreases |order|
  {
    hide Assembled, GoldenDispatch, HlsDispatch, DispatchOk, SameOutcome, WarpsLinked, MemoriesAgree, Fresh, StaleThrough, Traffic;
    if order != [] {
      var w := order[0].w;
      var trace := GoldenDispatch(ops, program, c, gs, w).1.trace;
      TrafficFrom(c, trace, |hs.memory.l1|);
      AloneIsFresh(hs.memory, stale, c, Traffic(c, trace));
      DispatchLinked(ops, vectors, program, c, gs, hs, stale, w);
      var g, h := GoldenDispatch(ops, program, c, gs, w).0, HlsStep(ops, vectors, Assembled(program), hs, order[0]).0;
      AloneScheduleFresh(ops, vectors, program, c, g, h, StaleNext(ops, program, c, gs, hs.memory, stale, w), order[1..]);
    }
  }

  /** A launch starts linked: reset caches over the same memory, warps at the first
      instruction with the same registers. */
  lemma StartLinked(program: seq<Instruction>, m: Subsystem, h: Hierarchy, gs: seq<GoldenWarp>)
    requires Ready(m) && h.l1 == map[] && h.l2 == map[] && SameMemory(m.global, h)
    requires forall w :: 0 <= w < |gs| ==> gs[w].pc == 0 && gs[w].simt.stack == []
    ensures var clean := m.(l1 := seq(|m.l1|, i requires 0 <= i < |m.l1| => m.l1[i].Reset()), l2 := m.l2.Reset());
            var hs := seq(|gs|, w requires 0 <= w < |gs| => HlsWarp(0, gs[w].regs));
            Linked(program, GoldenMachine(gs, h), HlsMachine(hs, clean), seq(|m.l1|, _ => {}))
  {
    hide Coherent, Assembled, SameMemory, AllLanes;
    ResetCoherent(m);
    NoWords(program);
  }

  lemma NoWords(program: seq<Instruction>)
    ensures Pos(program, 0) == 0
  {
    assert program[..0] == [];
  }
}

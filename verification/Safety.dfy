// What every interleaving of a launch guarantees.

module Safety {
  import opened Isa
  import opened Warp
  import opened Slots
  import opened Sums
  import opened Numbers
  import opened Protocol
  import opened Loading
  import opened Launch

  /** Slot j of unit c holds a warp, in a system of the right shape. */
  predicate HasSlot(cfg: Config, s: System, c: nat, j: nat) {
    && c < cfg.n && j < cfg.m && cfg.Resident(c, j)
    && |s.units| == cfg.n && |s.units[c].runs| == |s.units[c].slots| == |s.units[c].regs| == cfg.m
  }

  lemma HasShape(cfg: Config, s: System, c: nat, j: nat)
    requires Inv(cfg, s) && c < cfg.n && j < cfg.m && cfg.Resident(c, j)
    ensures HasSlot(cfg, s, c, j)
  {
  }

  /** Every warp has run once or not at all since the last release. */
  lemma RunsNearReleases(cfg: Config, s: System, c: nat, j: nat)
    requires Inv(cfg, s) && HasSlot(cfg, s, c, j)
    ensures var g, runs := s.barrier.releases, s.units[c].runs[j];
            g <= runs <= g + 1 && StallsBefore(cfg, cfg.Local(c, j), g)
  {
    hide Turn, PcAt, FlightOk, SeenStalls, SeenDone, Loads, BarrierOk;
    var u, g := s.units[c], s.barrier.releases;
    assert UnitInv(cfg, c, g, s.barrier.completed, u);
    assert c < cfg.total by {
      if c >= cfg.total {
        NoWarps(cfg, c, j);
      }
    }
    if u.launched {
      assert SlotOk(cfg, cfg.Local(c, j), Level(g, u), u.slots[j], u.runs[j], Reporting(u, j));
      if Pending(u) {
        assert g > 0;
        assert u.slots[j].state == STALLED;
      }
    }
  }

  /** The barrier is safe: a warp that has started its (k+1)-th run has every other
      warp of the launch, on every unit, already stopped at its k-th barrier. */
  lemma BarrierSafety(cfg: Config, s: System, c: nat, j: nat, c': nat, j': nat, k: nat)
    requires cfg.Valid() && Reachable(cfg, s)
    requires HasSlot(cfg, s, c, j) && HasSlot(cfg, s, c', j')
    requires 0 < k < s.units[c].runs[j]
    ensures s.units[c'].runs[j'] >= k && StallsAt(cfg, cfg.Local(c', j'), k - 1)
    ensures s.units[c].runs[j] <= s.units[c'].runs[j'] + 1
  {
    hide Inv, Turn;
    ReachableInv(cfg, s);
    RunsNearReleases(cfg, s, c, j);
    RunsNearReleases(cfg, s, c', j');
  }

  /** Whatever has been polled, release and completion are not both due. */
  lemma ReleaseOrDone(cfg: Config, s: System)
    requires cfg.Valid() && Reachable(cfg, s) && s.barrier.busy
    ensures !(ReleaseReady(s.barrier) && KernelComplete(s.barrier))
    ensures !(ReleaseReady(Poll(s).barrier) && KernelComplete(Poll(s).barrier))
    ensures !(ReleaseReady(Poll(s).barrier) && KernelComplete(ReleaseStep(Poll(s)).barrier))
  {
    hide SeenStalls, SeenDone, UnitsInv, Loads, Poll, HeadStalled, HeadCompleted;
    ReachableInv(cfg, s);
    PolledBarrier(s);
    if cfg.total > 0 {
      NeverBoth(cfg, s.barrier.releases, false, s.units);
      PollKept(cfg, s);
      NeverBoth(cfg, s.barrier.releases, false, Poll(s).units);
    }
  }

  lemma PolledBarrier(s: System)
    ensures Poll(s).barrier.total == s.barrier.total && Poll(s).barrier.releases == s.barrier.releases
    ensures Poll(s).barrier.completed == s.barrier.completed
  {
  }

  // ----- Streams -----

  /** What the streams of a unit hold at most. A unit with warps has at most one
      signal undelivered; one without may have one per release. */
  lemma StreamBounds(cfg: Config, s: System, c: nat)
    requires cfg.Valid() && Reachable(cfg, s) && c < cfg.n
    ensures |s.units| == cfg.n
    ensures var u := s.units[c];
            && |u.events| <= cfg.m && |u.dispatches| + |u.statuses| <= 1
            && u.tokens <= 1 && |u.seeds| <= cfg.seedDepth
            && (c < cfg.total ==> |u.signals| <= 1)
            && |u.signals| <= s.barrier.releases + 1
  {
    ReachableInv(cfg, s);
    var u, g, done := s.units[c], s.barrier.releases, s.barrier.completed;
    assert UnitInv(cfg, c, g, done, u) && UnitLoad(cfg, s.loader, c, u) && Counts(u);
    EventsWithin(cfg, u);
  }

  lemma EventsWithin(cfg: Config, u: Unit)
    requires Counts(u) && |u.slots| == cfg.m
    ensures |u.events| <= cfg.m
  {
    EventKinds(u.events);
    SlotKinds(u.slots);
    NotNegative(u.slots, IsStalled);
  }

  lemma {:induction false} EventKinds(events: seq<Code>)
    ensures |events| == Total(events, IsStallEvent) + Total(events, IsDoneEvent)
  {
    if events != [] {
      EventKinds(events[1..]);
    }
  }

  lemma {:induction false} SlotKinds(slots: seq<WarpSlot>)
    ensures Total(slots, IsStalled) + Total(slots, IsDone) <= |slots|
  {
    if slots != [] {
      SlotKinds(slots[1..]);
    }
  }

  // ----- Seeding -----

  function InitialWords(cfg: Config, c: nat, j: nat): seq<Word> {
    seq(WORDS_PER_WARP, i requires 0 <= i < WORDS_PER_WARP => Initial(cfg, c, j, i))
  }

  /** The pipeline is about to run the dispatch at the head of its stream. */
  predicate AboutToRun(u: Unit) { u.seeds == [] && u.dispatches != [] }

  /** The number of the warp in slot j of unit c: warps are dealt out to the units in
      turn from the launch's offset on, and numbers have 32 bits. */
  function GlobalWarp(cfg: Config, c: nat, j: nat): nat { (cfg.offset + c + j * cfg.n) % 0x1_0000_0000 }

  /** When a warp's first dispatch executes, its registers are the host's initial
      words for that warp, it starts at 0, and the fetched words are the host's program. */
  lemma FirstRunIsSeeded(cfg: Config, s: System, c: nat)
    requires cfg.Valid() && Reachable(cfg, s) && c < |s.units| && AboutToRun(s.units[c])
    ensures var u, d := s.units[c], s.units[c].dispatches[0];
            var g := (cfg.offset + c + d.slot * cfg.n) % 0x1_0000_0000;
            && HasSlot(cfg, s, c, d.slot) && c + d.slot * cfg.n < cfg.total && d.warpId == g
            && |u.store| == 256 && (forall k :: 0 <= k < |cfg.program| && k < 256 ==> u.store[k] == cfg.program[k])
            && (u.runs[d.slot] == 0 ==>
                  d.resumePc == 0 && |u.regs[d.slot]| == 1024
                  && forall k :: 0 <= k < 1024 ==> u.regs[d.slot][k] == cfg.initial(g % 2, g * 1024 + k))
  {
    hide Fetched, Turn, Initial, InitialWords, SeenStalls, SeenDone, BarrierOk, SignalsOk;
    ReachableInv(cfg, s);
    var u, g, done := s.units[c], s.barrier.releases, s.barrier.completed;
    var d := u.dispatches[0];
    assert UnitInv(cfg, c, g, done, u) && UnitLoad(cfg, s.loader, c, u);
    assert cfg.Resident(c, d.slot);
    assert SlotOk(cfg, cfg.Local(c, d.slot), Level(g, u), u.slots[d.slot], u.runs[d.slot], false);
    if u.runs[d.slot] == 0 {
      SeededRegs(cfg, s.loader, c, u, d.slot);
      SeedIndices(cfg, c, d.slot);
    }
  }

  /** The places one warp's dispatches start at: the first at 0, each later one where
      the host's program stopped at a barrier the time before. */
  predicate DispatchChain(cfg: Config, g: nat, starts: seq<nat>) {
    && starts != [] && starts[0] == 0
    && forall i :: 0 <= i < |starts| - 1 ==>
         var turn := cfg.exec(if |cfg.program| <= 256 then cfg.program else cfg.program[..256], g, starts[i]);
         turn.0.Stalled? && starts[i + 1] == turn.1
  }

  /** Every dispatch resumes its warp where its last one stopped. */
  lemma DispatchResumes(cfg: Config, s: System, c: nat) returns (starts: seq<nat>)
    requires cfg.Valid() && Reachable(cfg, s) && c < |s.units| && AboutToRun(s.units[c])
    ensures var u, d := s.units[c], s.units[c].dispatches[0];
            && d.slot < |u.runs| && |starts| == u.runs[d.slot] + 1 && starts[u.runs[d.slot]] == d.resumePc
            && DispatchChain(cfg, (cfg.offset + c + d.slot * cfg.n) % 0x1_0000_0000, starts)
  {
    hide Fetched, SeenStalls, SeenDone, BarrierOk, SignalsOk, UnitLoad, LoaderOk;
    ReachableInv(cfg, s);
    var u, g, done := s.units[c], s.barrier.releases, s.barrier.completed;
    var d := u.dispatches[0];
    assert UnitInv(cfg, c, g, done, u);
    assert cfg.Resident(c, d.slot);
    var w := cfg.Local(c, d.slot);
    assert SlotOk(cfg, w, Level(g, u), u.slots[d.slot], u.runs[d.slot], false);
    starts := seq(u.runs[d.slot] + 1, (i: nat) => PcAt(cfg, w, i));
    assert cfg.offset + w == cfg.offset + c + d.slot * cfg.n;
    ChainOfTurns(cfg, w, u.runs[d.slot]);
  }

  lemma ChainOfTurns(cfg: Config, w: nat, n: nat)
    requires StallsBefore(cfg, w, n)
    ensures DispatchChain(cfg, (cfg.offset + w) % 0x1_0000_0000, seq(n + 1, (i: nat) => PcAt(cfg, w, i)))
  {
    var starts := seq(n + 1, (i: nat) => PcAt(cfg, w, i));
    var words, g := Words(cfg), cfg.WarpId(w);
    forall i | 0 <= i < n
      ensures cfg.exec(words, g, starts[i]).0.Stalled? && starts[i + 1] == cfg.exec(words, g, starts[i]).1
    {
      assert StallsAt(cfg, w, i);
    }
  }

  lemma SeedIndices(cfg: Config, c: nat, j: nat)
    ensures var g, seed := (cfg.offset + c + j * cfg.n) % 0x1_0000_0000, InitialWords(cfg, c, j);
            |seed| == 1024 && forall k :: 0 <= k < 1024 ==> seed[k] == cfg.initial(g % 2, g * 1024 + k)
  {
    assert cfg.offset + (c + j * cfg.n) == cfg.offset + c + j * cfg.n;
  }

  /** The slot is filled from word x of the host's buffer. */
  predicate ReadsWord(cfg: Config, c: nat, j: nat, x: nat) {
    && c < cfg.n && j < cfg.m && c + j * cfg.n < cfg.total
    && GlobalWarp(cfg, c, j) * 1024 <= x < GlobalWarp(cfg, c, j) * 1024 + 1024
  }

  /** No word of the host's buffer fills two slots. */
  lemma SeedsDisjoint(cfg: Config, c: nat, j: nat, d: nat, k: nat, x: nat)
    requires cfg.Valid() && ReadsWord(cfg, c, j, x) && ReadsWord(cfg, d, k, x)
    ensures c == d && j == k
  {
    hide GlobalWarp;
    var v, w := c + j * cfg.n, d + k * cfg.n;
    assert GlobalWarp(cfg, c, j) == GlobalWarp(cfg, d, k);
    SameNumber(cfg, c, j, d, k);
    Placement(cfg.n, c, j, v);
    Placement(cfg.n, d, k, v);
  }

  lemma SameNumber(cfg: Config, c: nat, j: nat, d: nat, k: nat)
    requires cfg.Valid() && GlobalWarp(cfg, c, j) == GlobalWarp(cfg, d, k) && c + j * cfg.n < cfg.total && d + k * cfg.n < cfg.total
    ensures c + j * cfg.n == d + k * cfg.n
  {
    SameResidue(cfg.offset, c + j * cfg.n, d + k * cfg.n);
  }

  lemma SameResidue(offset: nat, v: nat, w: nat)
    requires v < 0x1_0000_0000 && w < 0x1_0000_0000 && (offset + v) % 0x1_0000_0000 == (offset + w) % 0x1_0000_0000
    ensures v == w
  {
  }

  /** Together the slots read the launch's window of the buffer, all of it and no more. */
  lemma SeedsCover(cfg: Config, x: nat)
    requires cfg.Valid() && !cfg.Faulty() && cfg.offset + cfg.total <= 0x1_0000_0000
    ensures (exists c: nat, j: nat :: ReadsWord(cfg, c, j, x)) <==> cfg.offset * 1024 <= x < (cfg.offset + cfg.total) * 1024
  {
    hide ReadsWord;
    if c: nat, j: nat :| ReadsWord(cfg, c, j, x) {
      SeedInWindow(cfg, c, j, x);
    }
    if cfg.offset * 1024 <= x < (cfg.offset + cfg.total) * 1024 {
      var c, j := WindowSeeds(cfg, x);
    }
  }

  lemma SeedInWindow(cfg: Config, c: nat, j: nat, x: nat)
    requires cfg.offset + cfg.total <= 0x1_0000_0000 && ReadsWord(cfg, c, j, x)
    ensures cfg.offset * 1024 <= x < (cfg.offset + cfg.total) * 1024
  {
    hide GlobalWarp;
    PlainNumber(cfg, c, j);
  }

  lemma WindowSeeds(cfg: Config, x: nat) returns (c: nat, j: nat)
    requires cfg.Valid() && !cfg.Faulty() && cfg.offset + cfg.total <= 0x1_0000_0000
    requires cfg.offset * 1024 <= x < (cfg.offset + cfg.total) * 1024
    ensures ReadsWord(cfg, c, j, x)
  {
    hide GlobalWarp, Config.Valid, Config.Faulty;
    var w := BlockOfWord(cfg.offset, cfg.total, x);
    WarpSlotOf(cfg, w);
    c, j := w % cfg.n, w / cfg.n;
    PlainNumber(cfg, c, j);
  }

  lemma BlockOfWord(offset: nat, total: nat, x: nat) returns (w: nat)
    requires offset * 1024 <= x < (offset + total) * 1024
    ensures w < total && (offset + w) * 1024 <= x < (offset + w) * 1024 + 1024
  {
    w := x / 1024 - offset;
  }

  lemma PlainNumber(cfg: Config, c: nat, j: nat)
    requires cfg.offset + cfg.total <= 0x1_0000_0000 && cfg.Local(c, j) < cfg.total
    ensures GlobalWarp(cfg, c, j) == cfg.offset + cfg.Local(c, j)
  {
  }

  lemma SeededRegs(cfg: Config, l: Loader, c: nat, u: Unit, j: nat)
    requires UnitLoad(cfg, l, c, u) && LoaderOk(cfg, l) && u.launched && u.seeds == []
    requires j < cfg.m && cfg.Resident(c, j) && u.runs[j] == 0
    ensures u.regs[j] == InitialWords(cfg, c, j)
  {
    hide Initial, StoreOk, SeedsOk;
    forall i | 0 <= i < WORDS_PER_WARP ensures u.regs[j][i] == Initial(cfg, c, j, i) {
      assert TokenSent(l, c) && Handled(l, c, j, i);
      assert Delivered(cfg, c, u.regs, u.seeds, j, i);
    }
  }

  // ----- Completion -----

  /** Every warp stops at exactly b barriers before it completes. */
  predicate Uniform(cfg: Config, b: nat) {
    forall w :: 0 <= w < cfg.total ==> StallsBefore(cfg, w, b) && !StallsAt(cfg, w, b)
  }

  /** A completed launch fits the machine, is not empty, and every warp of it has
      met the same number of barriers and run once more. */
  lemma DoneMeansUniform(cfg: Config, s: System)
    requires cfg.Valid() && Reachable(cfg, s) && s.barrier.completed
    ensures 0 < cfg.total <= cfg.n * cfg.m && Uniform(cfg, s.barrier.releases)
    ensures forall c: nat, j: nat :: HasSlot(cfg, s, c, j) ==> s.units[c].runs[j] == s.barrier.releases + 1
  {
    hide Inv, Turn, UnitInv, StallsBefore, StallsAt;
    ReachableInv(cfg, s);
    DoneFits(cfg, s);
    forall c: nat, j: nat | HasSlot(cfg, s, c, j) ensures s.units[c].runs[j] == s.barrier.releases + 1 {
      DoneSlot(cfg, s, c, j);
    }
    forall w | 0 <= w < cfg.total ensures StallsBefore(cfg, w, s.barrier.releases) && !StallsAt(cfg, w, s.barrier.releases) {
      DoneWarp(cfg, s, w);
    }
  }

  lemma DoneWarp(cfg: Config, s: System, w: nat)
    requires cfg.Valid() && Inv(cfg, s) && s.barrier.completed && !cfg.Faulty() && w < cfg.total
    ensures StallsBefore(cfg, w, s.barrier.releases) && !StallsAt(cfg, w, s.barrier.releases)
  {
    hide Inv, Turn;
    WarpSlotOf(cfg, w);
    DoneSlot(cfg, s, w % cfg.n, w / cfg.n);
  }

  lemma DoneFits(cfg: Config, s: System)
    requires Inv(cfg, s) && s.barrier.completed
    ensures 0 < cfg.total && !cfg.Faulty()
  {
    hide Loads, UnitsInv;
  }

  /** Warp w lives in slot w / n of unit w % n. */
  lemma WarpSlotOf(cfg: Config, w: nat)
    requires cfg.Valid() && !cfg.Faulty() && w < cfg.total
    ensures w % cfg.n < cfg.n && w / cfg.n < cfg.m && cfg.Local(w % cfg.n, w / cfg.n) == w
    ensures cfg.Resident(w % cfg.n, w / cfg.n)
  {
    var n := cfg.n;
    var c, j := w % n, w / n;
    Placement(n, c, j, w);
  }

  lemma DoneSlot(cfg: Config, s: System, c: nat, j: nat)
    requires Inv(cfg, s) && s.barrier.completed && c < cfg.n && j < cfg.m && cfg.Resident(c, j)
    ensures HasSlot(cfg, s, c, j) && s.units[c].runs[j] == s.barrier.releases + 1
    ensures StallsBefore(cfg, cfg.Local(c, j), s.barrier.releases) && !StallsAt(cfg, cfg.Local(c, j), s.barrier.releases)
  {
    hide Turn, PcAt, FlightOk, SeenStalls, SeenDone, BarrierOk;
    var u, g := s.units[c], s.barrier.releases;
    assert UnitInv(cfg, c, g, true, u);
    if c >= cfg.total {
      NoWarps(cfg, c, j);
    }
    assert u.launched && u.slots[j].state == DONE;
    assert SlotOk(cfg, cfg.Local(c, j), Level(g, u), u.slots[j], u.runs[j], Reporting(u, j));
  }

  /** A launch too big for the machine is refused: nothing is ever scheduled. */
  lemma FaultStartsNothing(cfg: Config, s: System)
    requires cfg.Valid() && Reachable(cfg, s) && cfg.Faulty()
    ensures !s.barrier.busy && !s.barrier.completed
    ensures forall c :: 0 <= c < |s.units| ==> !s.units[c].running && s.units[c].dispatches == [] && s.units[c].events == []
  {
    hide SeenStalls, SeenDone, Turn, SlotsOk, FlightOk, SignalsOk, UnitLoad;
    ReachableInv(cfg, s);
    forall c | 0 <= c < |s.units| ensures !s.units[c].running && s.units[c].dispatches == [] && s.units[c].events == [] {
      assert UnitInv(cfg, c, s.barrier.releases, s.barrier.completed, s.units[c]);
    }
  }

  /** and the fault is raised exactly for those launches. */
  lemma FaultIffTooBig(cfg: Config, s: System)
    requires cfg.Valid() && Reachable(cfg, s) && !s.barrier.busy && !s.barrier.completed
    ensures BarrierPass(cfg, s).barrier.fault <==> cfg.total > cfg.n * cfg.m
    ensures BarrierPass(cfg, s).barrier.busy <==> cfg.total <= cfg.n * cfg.m
  {
    hide UnitsInv, Loads, SeenStalls, SeenDone;
    ReachableInv(cfg, s);
  }
}

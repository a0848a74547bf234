// What the loader guarantees, in every interleaving: a unit's first dispatch of
// a warp finds the host's program and exactly that warp's initial registers
// (hls/src/scheduler/gpgpu_top.h:119-168; hls/src/compute_unit/compute_pipeline.cpp:325-341).

module Loading {
  import opened Isa
  import opened Warp
  import opened Slots
  import opened Protocol

  /** The loader has sent word i of slot j to unit c, if there is such a word. */
  predicate Handled(l: Loader, c: nat, j: nat, i: nat) {
    l.regsDone || c < l.c || (c == l.c && (j < l.slot || (j == l.slot && i < l.i)))
  }

  predicate TokenSent(l: Loader, c: nat) { l.regsDone || c < l.c }

  predicate LoaderOk(cfg: Config, l: Loader) {
    && l.loadIdx <= MAX_PROGRAM_LEN && l.c <= cfg.n && l.slot < cfg.m && l.i < WORDS_PER_WARP
    && (l.loaded ==> l.loadIdx == MAX_PROGRAM_LEN)
    && (!l.loaded ==> !l.regsDone && l.c == 0 && l.slot == 0 && l.i == 0)
    && (l.c == cfg.n ==> l.slot == 0 && l.i == 0)
    && (l.regsDone ==> l.c == 0 && l.slot == 0 && l.i == 0)
  }

  predicate StoreOk(cfg: Config, l: Loader, store: seq<Word>) {
    && |store| == MAX_PROGRAM_LEN
    && forall k :: 0 <= k < l.loadIdx && k < |cfg.program| && k < |store| ==> store[k] == cfg.program[k]
  }

  predicate SeedOk(cfg: Config, c: nat, sd: Seed) {
    sd.slot < cfg.m && sd.i < WORDS_PER_WARP && cfg.Resident(c, sd.slot) && sd.value == Initial(cfg, c, sd.slot, sd.i)
  }

  predicate SeedsOk(cfg: Config, c: nat, seeds: seq<Seed>) {
    |seeds| <= cfg.seedDepth && forall k :: 0 <= k < |seeds| ==> SeedOk(cfg, c, seeds[k])
  }

  /** Word i of slot j is in the register file, or on its way. */
  predicate Delivered(cfg: Config, c: nat, regs: seq<seq<Word>>, seeds: seq<Seed>, j: nat, i: nat)
    requires j < |regs| && |regs[j]| == WORDS_PER_WARP && i < WORDS_PER_WARP
  {
    regs[j][i] == Initial(cfg, c, j, i) || Seed(j, i, Initial(cfg, c, j, i)) in seeds
  }

  predicate Shaped(cfg: Config, u: Unit) {
    && |u.regs| == |u.runs| == cfg.m
    && forall j :: 0 <= j < cfg.m ==> |u.regs[j]| == WORDS_PER_WARP
  }

  /** Every word sent to a warp that has not run yet is there or on its way. */
  predicate RegsOk(cfg: Config, l: Loader, c: nat, u: Unit)
    requires Shaped(cfg, u)
  {
    forall j, i :: 0 <= j < cfg.m && 0 <= i < WORDS_PER_WARP && cfg.Resident(c, j) && u.runs[j] == 0 && Handled(l, c, j, i)
      ==> Delivered(cfg, c, u.regs, u.seeds, j, i)
  }

  predicate TokensOk(l: Loader, c: nat, u: Unit) {
    && u.tokens + (if u.launched then 1 else 0) == (if TokenSent(l, c) then 1 else 0)
    && (u.launched ==> l.loaded)
  }

  predicate UnitLoad(cfg: Config, l: Loader, c: nat, u: Unit) {
    && Shaped(cfg, u) && StoreOk(cfg, l, u.store) && SeedsOk(cfg, c, u.seeds) && TokensOk(l, c, u) && RegsOk(cfg, l, c, u)
  }

  predicate Loads(cfg: Config, s: System) {
    && LoaderOk(cfg, s.loader)
    && |s.units| == cfg.n
    && forall c :: 0 <= c < cfg.n ==> UnitLoad(cfg, s.loader, c, s.units[c])
  }

  lemma InitialLoads(cfg: Config, s: System)
    requires cfg.Valid() && InitialSystem(cfg, s)
    ensures Loads(cfg, s)
  {
  }

  // ----- Steps of one unit -----

  // The scheduler's three running steps touch none of this.
  predicate SameLoad(u: Unit, v: Unit) {
    && v.regs == u.regs && v.runs == u.runs && v.store == u.store && v.seeds == u.seeds
    && v.tokens == u.tokens && v.launched == u.launched
  }

  lemma LoadKept(cfg: Config, l: Loader, c: nat, u: Unit, v: Unit)
    requires UnitLoad(cfg, l, c, u) && SameLoad(u, v)
    ensures UnitLoad(cfg, l, c, v)
  {
  }

  lemma SchedulerLoads(cfg: Config, l: Loader, c: nat, u: Unit)
    requires UnitLoad(cfg, l, c, u) && LoaderOk(cfg, l)
    ensures UnitLoad(cfg, l, c, SchedulerPass(cfg, c, u))
  {
    hide UnitLoad, SameLoad, LaunchStep, DispatchStep, StatusStep, SignalStep;
    if u.running {
      RunningLoads(u);
      LoadKept(cfg, l, c, u, SchedulerPass(cfg, c, u));
    } else {
      LaunchLoads(cfg, l, c, u);
    }
  }

  lemma RunningLoads(u: Unit)
    ensures SameLoad(u, SignalStep(StatusStep(DispatchStep(u))))
  {
    hide NextReady, RecordResult, ReleaseSlots, Dispatched, BuildDispatch;
  }

  lemma LaunchLoads(cfg: Config, l: Loader, c: nat, u: Unit)
    requires UnitLoad(cfg, l, c, u) && LoaderOk(cfg, l)
    ensures UnitLoad(cfg, l, c, LaunchStep(cfg, c, u))
  {
    hide StoreOk, SeedsOk, LaunchSlots, Delivered;
  }

  lemma SeedLoads(cfg: Config, l: Loader, c: nat, u: Unit)
    requires UnitLoad(cfg, l, c, u) && u.seeds != []
    ensures UnitLoad(cfg, l, c, SeedStep(u))
  {
    hide StoreOk, Initial;
    var v, sd := SeedStep(u), u.seeds[0];
    assert SeedOk(cfg, c, sd);
    forall k | 0 <= k < |v.seeds| ensures SeedOk(cfg, c, v.seeds[k]) {
      assert SeedOk(cfg, c, u.seeds[k + 1]);
    }
    forall j, i | 0 <= j < cfg.m && 0 <= i < WORDS_PER_WARP && cfg.Resident(c, j) && v.runs[j] == 0 && Handled(l, c, j, i)
      ensures Delivered(cfg, c, v.regs, v.seeds, j, i)
    {
      assert Delivered(cfg, c, u.regs, u.seeds, j, i);
      var want := Seed(j, i, Initial(cfg, c, j, i));
      if want in u.seeds && want != sd {
        assert u.seeds == [sd] + v.seeds;
        assert want in v.seeds;
      }
    }
  }

  lemma RunLoads(cfg: Config, l: Loader, c: nat, u: Unit, result: seq<Word>)
    requires UnitLoad(cfg, l, c, u) && u.dispatches != [] && u.dispatches[0].slot < cfg.m
    ensures UnitLoad(cfg, l, c, DispatchedRun(cfg, u, result))
  {
    hide StoreOk, SeedsOk, Initial, Execute;
    var v := DispatchedRun(cfg, u, result);
    forall j, i | 0 <= j < cfg.m && 0 <= i < WORDS_PER_WARP && cfg.Resident(c, j) && v.runs[j] == 0 && Handled(l, c, j, i)
      ensures Delivered(cfg, c, v.regs, v.seeds, j, i)
    {
      assert Delivered(cfg, c, u.regs, u.seeds, j, i);
    }
  }

  // ----- Steps of the loader -----

  lemma ProgramLoads(cfg: Config, s: System)
    requires cfg.Valid() && Loads(cfg, s) && !s.loader.loaded
    ensures Loads(cfg, ProgramStep(cfg, s))
  {
    hide SeedsOk;
    var t := ProgramStep(cfg, s);
    forall c | 0 <= c < cfg.n ensures UnitLoad(cfg, t.loader, c, t.units[c]) {
    }
  }

  // A unit the loader is not working on is none the wiser.
  lemma OtherUnit(cfg: Config, l: Loader, c: nat, u: Unit)
    requires UnitLoad(cfg, l, c, u) && LoaderOk(cfg, l) && l.loaded && !l.regsDone && l.c < cfg.n && c != l.c
    ensures UnitLoad(cfg, Advance(cfg, l), c, u)
  {
    hide SeedsOk;
    forall j, i | 0 <= j < cfg.m && 0 <= i < WORDS_PER_WARP && cfg.Resident(c, j) && u.runs[j] == 0 && Handled(Advance(cfg, l), c, j, i)
      ensures Delivered(cfg, c, u.regs, u.seeds, j, i)
    {
      assert Handled(l, c, j, i);
    }
  }

  lemma SendLoads(cfg: Config, l: Loader, u: Unit)
    requires UnitLoad(cfg, l, l.c, u) && LoaderOk(cfg, l) && l.loaded && !l.regsDone && l.c < cfg.n && !Blocked(cfg, l, u)
    ensures UnitLoad(cfg, Advance(cfg, l), l.c, SendSeed(cfg, l, u))
  {
    hide Initial;
    var v, k, c := SendSeed(cfg, l, u), Advance(cfg, l), l.c;
    forall j, i | 0 <= j < cfg.m && 0 <= i < WORDS_PER_WARP && cfg.Resident(c, j) && v.runs[j] == 0 && Handled(k, c, j, i)
      ensures Delivered(cfg, c, v.regs, v.seeds, j, i)
    {
      if j == l.slot && i == l.i {
        assert v.seeds[|u.seeds|] == Seed(j, i, Initial(cfg, c, j, i));
      } else {
        assert Handled(l, c, j, i);
        assert Delivered(cfg, c, u.regs, u.seeds, j, i);
        var want := Seed(j, i, Initial(cfg, c, j, i));
        assert want in u.seeds ==> want in v.seeds;
      }
    }
  }

  lemma RegisterLoads(cfg: Config, s: System)
    requires cfg.Valid() && Loads(cfg, s) && s.loader.loaded && !s.loader.regsDone
    ensures Loads(cfg, RegisterStep(cfg, s))
  {
    hide UnitLoad, SendSeed;
    var l, t := s.loader, RegisterStep(cfg, s);
    if l.c < cfg.n {
      if !Blocked(cfg, l, s.units[l.c]) {
        SendLoads(cfg, l, s.units[l.c]);
        forall c | 0 <= c < cfg.n ensures UnitLoad(cfg, t.loader, c, t.units[c]) {
          if c != l.c {
            OtherUnit(cfg, l, c, s.units[c]);
          }
        }
      }
    } else {
      forall c | 0 <= c < cfg.n ensures UnitLoad(cfg, t.loader, c, t.units[c]) {
        LoadedUnit(cfg, l, c, s.units[c]);
      }
    }
  }

  lemma LoadedUnit(cfg: Config, l: Loader, c: nat, u: Unit)
    requires UnitLoad(cfg, l, c, u) && LoaderOk(cfg, l) && l.loaded && l.c == cfg.n && c < cfg.n
    ensures UnitLoad(cfg, l.(regsDone := true, c := 0, slot := 0, i := 0), c, u)
  {
    hide SeedsOk;
    forall j, i | 0 <= j < cfg.m && 0 <= i < WORDS_PER_WARP && cfg.Resident(c, j) && u.runs[j] == 0
      ensures Delivered(cfg, c, u.regs, u.seeds, j, i)
    {
      assert Handled(l, c, j, i);
    }
  }
}

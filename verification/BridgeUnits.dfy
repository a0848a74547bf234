// The two worker loops of `KernelBridge::runOnHardware` over an array of workers
// (models/systemc/integration/kernel_bridge.cpp:375-459, 476-581).

module BridgeUnits {
  import opened Sums
  import opened KernelBridge
  import Numbers

  method CountArrived(workers: array<Worker>, block: nat, id: nat) returns (arrived: int)
    ensures arrived == Arrived(workers[..], block, id)
  {
    arrived := 0;
    for j := 0 to workers.Length
      invariant arrived == Total(workers[..][..j], Waiter(block, id))
    {
      TotalTake(workers[..], j, Waiter(block, id));
      if WaitsOn(workers[j], block, id) {
        arrived := arrived + 1;
      }
    }
    assert workers[..][..workers.Length] == workers[..];
  }

  method ReleaseBarrier(workers: array<Worker>, block: nat, id: nat)
    modifies workers
    ensures workers[..] == ReleaseAll(old(workers[..]), block, id)
  {
    ghost var before := workers[..];
    for j := 0 to workers.Length
      invariant forall k :: 0 <= k < workers.Length ==> workers[k] == if k < j then ReleasedBy(before[k], block, id) else before[k]
    {
      if WaitsOn(workers[j], block, id) {
        workers[j] := workers[j].(blocked := false);
      }
    }
    assert workers[..] == ReleaseAll(before, block, id);
  }

  method SettleBarrier(p: Plan, workers: array<Worker>, i: nat)
    requires i < workers.Length
    modifies workers
    ensures workers[..] == Settle(p, old(workers[..]), i)
  {
    var w := workers[i];
    if w.active && w.blocked {
      var arrived := CountArrived(workers, w.block, w.barrier);
      if arrived == p.perBlock {
        ReleaseBarrier(workers, w.block, w.barrier);
      }
    }
  }

  method StepWorker(p: Plan, workers: array<Worker>, i: nat, cycle: nat)
    requires i < workers.Length && Runnable(workers[i])
    modifies workers
    ensures workers[..] == Visit(p, old(workers[..]), i, cycle)
  {
    hide Settle, Stepped;
    ghost var before := workers[..];
    workers[i] := Stepped(p, workers[i], p.next(i, cycle));
    assert workers[..] == before[i := Stepped(p, before[i], p.next(i, cycle))];
    SettleBarrier(p, workers, i);
    if workers[i].halted {
      workers[i] := workers[i].(active := false);
    }
  }

  /** One pass of the scalar scan. */
  method ScalarPass(p: Plan, workers: array<Worker>, units: nat, cursor: nat, start: nat)
    returns (any: bool, progress: bool, cycle: nat)
    requires AllTidy(p, workers[..])
    requires Inv(p, workers[..])
    modifies workers
    ensures var b := Scan(p, units, cursor, Pass(old(workers[..]), false, false, 0, start), 0);
            workers[..] == b.ws && any == b.any && progress == b.progress && cycle == b.cycle
  {
    hide Inv, Visit, Budget;
    var selected := 0;
    any, progress, cycle := false, false, start;
    ghost var a := Pass(workers[..], false, false, 0, start);
    var scanned := 0;
    while scanned < workers.Length && selected < units
      invariant scanned <= workers.Length && Inv(p, workers[..])
      invariant Scan(p, units, cursor, a, 0) == Scan(p, units, cursor, Pass(workers[..], any, progress, selected, cycle), scanned)
    {
      var i := Place(workers.Length, cursor, scanned);
      ghost var now := Pass(workers[..], any, progress, selected, cycle);
      ScanOneKeeps(p, now, i);
      if workers[i].active {
        any := true;
        if !workers[i].blocked {
          selected := selected + 1;
          progress := true;
          StepWorker(p, workers, i, cycle);
          cycle := cycle + 1;
        }
      }
      assert Pass(workers[..], any, progress, selected, cycle) == ScanOne(p, now, i);
      scanned := scanned + 1;
    }
  }

  /** The scalar loop ends, with every worker complete or with an exact deadlock. */
  method RunScalar(p: Plan, workers: array<Worker>, units: nat) returns (ok: bool)
    requires Inv(p, workers[..]) && 0 < units
    modifies workers
    ensures Inv(p, workers[..]) && SameBlocks(old(workers[..]), workers[..])
    ensures ok ==> AllComplete(workers[..])
    ensures !ok ==> Deadlocked(workers[..])
    ensures workers.Length > 0 ==> exists r :: workers[..] == PassesDone(p, units, old(workers[..]), r).0
  {
    hide Inv, Budget, Scan, SameBlocks;
    var cycle: nat, cursor: nat := 0, 0;
    ghost var start, r := workers[..], 0;
    assert SameBlocks(start, start) by { BlocksSame(start); }
    if workers.Length == 0 {
      return true;
    }
    while true
      invariant Inv(p, workers[..]) && cursor < workers.Length && SameBlocks(start, workers[..])
      invariant PassesDone(p, units, start, r) == (workers[..], cycle) && cursor == CursorAfter(workers.Length, units, 0, r)
      decreases Budget(p, workers[..])
    {
      ghost var before := workers[..];
      InvTidy(p, before);
      BudgetNatural(p, before);
      ScanKeeps(p, units, cursor, Pass(before, false, false, 0, cycle), 0);
      ScanBlocks(p, units, cursor, Pass(before, false, false, 0, cycle), 0);
      ScalarVerdict(p, units, cursor, before, cycle);
      var any, progress, after := ScalarPass(p, workers, units, cursor, cycle);
      BlocksThrough(start, before, workers[..]);
      assert PassesDone(p, units, start, r + 1) == (workers[..], after);
      cycle, r := after, r + 1;
      cursor := (cursor + units) % workers.Length;
      if !any {
        return true;
      }
      if !progress {
        return false;
      }
    }
  }

  lemma BlocksSame(ws: seq<Worker>)
    ensures SameBlocks(ws, ws)
  {
  }

  lemma BlocksThrough(ws: seq<Worker>, us: seq<Worker>, vs: seq<Worker>)
    requires SameBlocks(ws, us) && SameBlocks(us, vs)
    ensures SameBlocks(ws, vs)
  {
  }

  lemma InvTidy(p: Plan, ws: seq<Worker>)
    requires Inv(p, ws)
    ensures AllTidy(p, ws)
  {
  }

  lemma {:induction false} ScanBlocks(p: Plan, units: nat, cursor: nat, a: Pass, k: nat)
    requires k <= |a.ws|
    ensures SameBlocks(a.ws, Scan(p, units, cursor, a, k).ws)
    decreases |a.ws| - k
  {
    hide Visit, Place;
    if k < |a.ws| && a.selected < units {
      var i := Place(|a.ws|, cursor, k);
      ScanOneShape(p, a, i);
      VisitBlocks(p, a.ws, i, a.cycle);
      ScanBlocks(p, units, cursor, ScanOne(p, a, i), k + 1);
    }
  }

  lemma VisitBlocks(p: Plan, ws: seq<Worker>, i: nat, cycle: nat)
    requires i < |ws|
    ensures SameBlocks(ws, Visit(p, ws, i, cycle))
  {
    if Runnable(ws[i]) {
      SettleKeeps(p, ws[i := Stepped(p, ws[i], p.next(i, cycle))], i);
    }
  }

  // ----- Warps -----

  method StepWarp(p: Plan, workers: array<Worker>, lo: nat, hi: nat, cycle: nat) returns (stepped: bool)
    requires lo <= hi <= workers.Length
    modifies workers
    ensures workers[..] == StepRange(p, old(workers[..]), lo, hi, cycle)
    ensures !stepped ==> workers[..] == old(workers[..]) && !SomeRunnable(workers[..], lo, hi)
    ensures stepped ==> SomeRunnable(old(workers[..]), lo, hi)
  {
    hide Stepped, Runnable;
    stepped := false;
    ghost var before := workers[..];
    for i := lo to hi
      invariant StepRange(p, before, lo, hi, cycle) == StepRange(p, workers[..], i, hi, cycle)
      invariant stepped ==> SomeRunnable(before, lo, hi)
      invariant !stepped ==> workers[..] == before && forall k :: lo <= k < i ==> !Runnable(before[k])
    {
      ghost var now := workers[..];
      if Runnable(workers[i]) {
        assert !stepped ==> Runnable(before[i]);
        workers[i] := Stepped(p, workers[i], p.next(i, cycle));
        stepped := true;
      }
      assert workers[..] == StepRunnable(p, now, i, cycle);
    }
  }

  method SettleWarp(p: Plan, workers: array<Worker>, lo: nat, hi: nat)
    requires lo <= hi <= workers.Length
    modifies workers
    ensures workers[..] == SettleRange(p, old(workers[..]), lo, hi)
  {
    hide Settle;
    ghost var before := workers[..];
    for i := lo to hi
      invariant SettleRange(p, before, lo, hi) == SettleRange(p, workers[..], i, hi)
    {
      SettleBarrier(p, workers, i);
    }
  }

  method RetireWarp(workers: array<Worker>, lo: nat, hi: nat) returns (allDone: bool)
    requires lo <= hi <= workers.Length
    modifies workers
    ensures workers[..] == RetireRange(old(workers[..]), lo, hi)
    ensures allDone <==> forall i :: lo <= i < hi ==> !workers[i].active
  {
    ghost var before := workers[..];
    allDone := true;
    for i := lo to hi
      invariant forall k :: 0 <= k < workers.Length ==> workers[k] == if lo <= k < i then Retired(before[k]) else before[k]
      invariant allDone <==> forall k :: lo <= k < i ==> !workers[k].active
    {
      if workers[i].active {
        if workers[i].halted {
          workers[i] := workers[i].(active := false);
        } else {
          allDone := false;
        }
      } else if workers[i].halted {
        assert workers[i] == Retired(before[i]);
      }
    }
    assert workers[..] == RetireRange(before, lo, hi);
  }

  method WarpTurn(p: Plan, workers: array<Worker>, lo: nat, hi: nat, cycle: nat) returns (stepped: bool, allDone: bool)
    requires Inv(p, workers[..]) && lo <= hi <= workers.Length
    modifies workers
    ensures workers[..] == GroupTurn(p, old(workers[..]), lo, hi, cycle)
    ensures stepped <==> SomeRunnable(old(workers[..]), lo, hi)
    ensures allDone <==> forall i :: lo <= i < hi ==> !workers[i].active
  {
    hide StepRange, SettleRange, Inv, SomeRunnable;
    stepped := StepWarp(p, workers, lo, hi, cycle);
    SettleWarp(p, workers, lo, hi);
    allDone := RetireWarp(workers, lo, hi);
  }

  /** One warp's workers: positions lo up to hi. */
  datatype Group = Group(lo: nat, hi: nat)

  /** Warps are separate ranges that cover all workers. */
  predicate Grouped(groups: seq<Group>, n: nat) {
    && (forall g :: 0 <= g < |groups| ==> groups[g].lo < groups[g].hi <= n)
    && (forall g, h :: 0 <= g < h < |groups| ==> groups[g].hi <= groups[h].lo)
    && forall i :: 0 <= i < n ==> InSomeGroup(groups, i)
  }

  predicate InSomeGroup(groups: seq<Group>, i: nat) {
    exists g :: 0 <= g < |groups| && groups[g].lo <= i < groups[g].hi
  }

  predicate SomeActive(ws: seq<Worker>, g: Group) { exists i :: g.lo <= i < g.hi && i < |ws| && ws[i].active }

  /** A warp is marked active exactly while one of its threads is. */
  predicate Marked(groups: seq<Group>, marks: seq<bool>, ws: seq<Worker>) {
    |marks| == |groups| && forall g :: 0 <= g < |groups| ==> (marks[g] <==> SomeActive(ws, groups[g]))
  }

  lemma MarkAfterTurn(groups: seq<Group>, marks: seq<bool>, ws: seq<Worker>, us: seq<Worker>, g: nat, mark: bool)
    requires Grouped(groups, |ws|) && Marked(groups, marks, ws) && g < |groups| && |us| == |ws|
    requires forall j :: 0 <= j < |ws| && !(groups[g].lo <= j < groups[g].hi) ==> us[j].active == ws[j].active
    requires mark <==> SomeActive(us, groups[g])
    ensures Marked(groups, marks[g := mark], us)
  {
    forall h | 0 <= h < |groups| && h != g ensures SomeActive(us, groups[h]) <==> SomeActive(ws, groups[h]) {
      assert forall i :: groups[h].lo <= i < groups[h].hi ==> us[i].active == ws[i].active;
    }
  }

  lemma NoneMarked(p: Plan, groups: seq<Group>, marks: seq<bool>, ws: seq<Worker>)
    requires Grouped(groups, |ws|) && Marked(groups, marks, ws) && AllTidy(p, ws)
    ensures (forall g :: 0 <= g < |groups| ==> !marks[g]) ==> AllComplete(ws)
    ensures (exists g :: 0 <= g < |groups| && marks[g]) ==> exists i :: 0 <= i < |ws| && ws[i].active
  {
    if forall g :: 0 <= g < |groups| ==> !marks[g] {
      forall i | 0 <= i < |ws| ensures ws[i].halted && !ws[i].active {
        assert InSomeGroup(groups, i) && Tidy(p, ws[i]);
      }
    }
  }

  lemma NoneRuns(p: Plan, groups: seq<Group>, marks: seq<bool>, ws: seq<Worker>)
    requires Grouped(groups, |ws|) && Marked(groups, marks, ws) && Inv(p, ws)
    requires forall g :: 0 <= g < |groups| && marks[g] ==> !SomeRunnable(ws, groups[g].lo, groups[g].hi)
    requires exists g :: 0 <= g < |groups| && marks[g]
    ensures Deadlocked(ws)
  {
    hide Sized, NoneFull, Deadlocked, Together, Sound;
    NoneMarked(p, groups, marks, ws);
    DeadlockedFlags(p, ws);
    forall i | 0 <= i < |ws| && ws[i].active ensures ws[i].blocked {
      assert InSomeGroup(groups, i) && Tidy(p, ws[i]);
      var g :| 0 <= g < |groups| && groups[g].lo <= i < groups[g].hi;
      assert SomeActive(ws, groups[g]);
      assert !SomeRunnable(ws, groups[g].lo, groups[g].hi);
    }
  }

  /** One round over all warps still marked. */
  method WarpRound(p: Plan, workers: array<Worker>, groups: seq<Group>, marks: array<bool>, start: nat)
    returns (any: bool, progress: bool, cycle: nat)
    requires Inv(p, workers[..]) && Grouped(groups, workers.Length) && Marked(groups, marks[..], workers[..])
    modifies workers, marks
    ensures Inv(p, workers[..]) && Marked(groups, marks[..], workers[..]) && SameBlocks(old(workers[..]), workers[..])
    ensures !any ==> AllComplete(workers[..])
    ensures any && !progress ==> Deadlocked(workers[..])
    ensures progress ==> any && Budget(p, workers[..]) < Budget(p, old(workers[..]))
    ensures !progress ==> workers[..] == old(workers[..])
  {
    hide Inv, Budget, Grouped, Marked, SomeRunnable, SomeActive, DidAfter, GroupTurn;
    any, progress, cycle := false, false, start;
    ghost var before := workers[..];
    assert marks.Length == |groups| by { MarksLength(groups, marks[..], before); }
    for g := 0 to |groups|
      invariant marks.Length == |groups|
      invariant Inv(p, workers[..]) && Marked(groups, marks[..], workers[..]) && SameBlocks(before, workers[..])
      invariant Budget(p, workers[..]) <= Budget(p, before)
      invariant if progress then any && Budget(p, workers[..]) < Budget(p, before) else workers[..] == before
      invariant any || forall h :: 0 <= h < g ==> !marks[h]
      invariant !progress ==> forall h :: 0 <= h < g && marks[h] ==> !SomeRunnable(before, groups[h].lo, groups[h].hi)
      invariant !progress && any ==> exists h :: 0 <= h < g && marks[h]
    {
      if marks[g] {
        any := true;
        ghost var now := workers[..];
        ghost var flags := marks[..];
        GroupOk(groups, workers.Length, g);
        GroupTurnKeeps(p, now, groups[g].lo, groups[g].hi, cycle);
        var stepped, done := WarpTurn(p, workers, groups[g].lo, groups[g].hi, cycle);
        cycle := cycle + 1;
        assert done <==> !SomeActive(workers[..], groups[g]) by { DoneMeansNone(workers[..], groups[g]); }
        MarkAfterTurn(groups, flags, now, workers[..], g, !done);
        if !stepped {
          StillMarked(groups, flags, now, g);
        }
        if done {
          marks[g] := false;
        }
        assert marks[..] == flags[g := !done];
        if stepped {
          progress := true;
        }
      }
    }
    InvTidy(p, workers[..]);
    NoneMarked(p, groups, marks[..], workers[..]);
    if any && !progress {
      NoneRuns(p, groups, marks[..], workers[..]);
    }
  }

  lemma MarksLength(groups: seq<Group>, marks: seq<bool>, ws: seq<Worker>)
    requires Marked(groups, marks, ws)
    ensures |marks| == |groups|
  {
  }

  lemma GroupOk(groups: seq<Group>, n: nat, g: nat)
    requires Grouped(groups, n) && g < |groups|
    ensures groups[g].lo < groups[g].hi <= n
  {
  }

  lemma StillMarked(groups: seq<Group>, marks: seq<bool>, ws: seq<Worker>, g: nat)
    requires Marked(groups, marks, ws) && g < |groups| && marks[g]
    ensures SomeActive(ws, groups[g])
  {
  }

  lemma DoneMeansNone(ws: seq<Worker>, g: Group)
    requires g.hi <= |ws|
    ensures (forall i :: g.lo <= i < g.hi ==> !ws[i].active) <==> !SomeActive(ws, g)
  {
  }

  /** The warp loop ends, with every worker complete or with an exact deadlock. */
  method RunWarps(p: Plan, workers: array<Worker>, groups: seq<Group>) returns (ok: bool)
    requires Inv(p, workers[..]) && Grouped(groups, workers.Length)
    requires forall i :: 0 <= i < workers.Length ==> workers[i].active
    modifies workers
    ensures Inv(p, workers[..]) && SameBlocks(old(workers[..]), workers[..])
    ensures ok ==> AllComplete(workers[..])
    ensures !ok ==> Deadlocked(workers[..])
  {
    hide Inv, Budget;
    var cycle: nat := 0;
    var marks := new bool[|groups|](_ => true);
    assert Marked(groups, marks[..], workers[..]) by { AllMarked(groups, marks[..], workers[..]); }
    while true
      invariant Inv(p, workers[..]) && Marked(groups, marks[..], workers[..]) && SameBlocks(old(workers[..]), workers[..])
      decreases Budget(p, workers[..])
    {
      InvTidy(p, workers[..]);
      BudgetNatural(p, workers[..]);
      var any, progress, after := WarpRound(p, workers, groups, marks, cycle);
      cycle := after;
      if !any {
        return true;
      }
      if !progress {
        return false;
      }
    }
  }

  lemma AllMarked(groups: seq<Group>, marks: seq<bool>, ws: seq<Worker>)
    requires Grouped(groups, |ws|) && |marks| == |groups|
    requires (forall g :: 0 <= g < |marks| ==> marks[g]) && forall i :: 0 <= i < |ws| ==> ws[i].active
    ensures Marked(groups, marks, ws)
  {
    forall g | 0 <= g < |groups| ensures SomeActive(ws, groups[g]) {
      assert ws[groups[g].lo].active;
    }
  }

  // ----- The workers at launch -----

  /** `makeWorker` for every thread: thread t belongs to block t / perBlock. */
  function Launched(p: Plan, blocks: nat): seq<Worker>
    requires p.perBlock > 0
  {
    seq(blocks * p.perBlock, t requires 0 <= t < blocks * p.perBlock => KernelBridge.Worker(t / p.perBlock, true, false, false, 0, 0, []))
  }

  lemma {:induction false} TotalJoin(a: seq<Worker>, b: seq<Worker>, f: Worker -> int)
    ensures Total(a + b, f) == Total(a, f) + Total(b, f)
  {
    if a == [] {
      assert a + b == b;
    } else {
      assert (a + b)[1..] == a[1..] + b;
      TotalJoin(a[1..], b, f);
    }
  }

  lemma {:induction false} TotalOnes(ws: seq<Worker>, f: Worker -> int, each: int)
    requires forall i :: 0 <= i < |ws| ==> f(ws[i]) == each
    ensures Total(ws, f) == each * |ws|
  {
    if ws != [] {
      TotalOnes(ws[1..], f, each);
    }
  }

  lemma BlockOf(p: Plan, k: nat, t: nat)
    requires 0 < p.perBlock && k * p.perBlock <= t < (k + 1) * p.perBlock
    ensures t / p.perBlock == k
  {
    assert (k + 1) * p.perBlock == k * p.perBlock + p.perBlock;
    Numbers.Placement(p.perBlock, t - k * p.perBlock, k, t);
  }

  lemma {:induction false} BlockCount(p: Plan, blocks: nat, b: nat)
    requires 0 < p.perBlock
    ensures Total(Launched(p, blocks), InBlock(b)) == if b < blocks then p.perBlock else 0
  {
    if blocks > 0 {
      var k, m := blocks - 1, (blocks - 1) * p.perBlock;
      assert blocks * p.perBlock == m + p.perBlock;
      var last := seq(p.perBlock, _ => KernelBridge.Worker(k, true, false, false, 0, 0, []));
      forall t | m <= t < blocks * p.perBlock ensures t / p.perBlock == k {
        BlockOf(p, k, t);
      }
      assert Launched(p, blocks) == Launched(p, k) + last;
      BlockCount(p, k, b);
      TotalJoin(Launched(p, k), last, InBlock(b));
      TotalOnes(last, InBlock(b), if b == k then 1 else 0);
    }
  }

  /** Freshly made workers satisfy the loops' requirements. */
  lemma LaunchedInv(p: Plan, blocks: nat)
    requires 0 < p.perBlock && 0 < p.maxCycles
    ensures Inv(p, Launched(p, blocks))
  {
    var ws := Launched(p, blocks);
    forall b: nat | exists i :: 0 <= i < |ws| && ws[i].block == b ensures Total(ws, InBlock(b)) == p.perBlock {
      BlockCount(p, blocks, b);
      if b >= blocks {
        var i :| 0 <= i < |ws| && ws[i].block == b;
        TotalUpdate(ws, i, ws[i].(block := b + 1), InBlock(b));
        NotNegative(ws[i := ws[i].(block := b + 1)], InBlock(b));
      }
    }
  }
}

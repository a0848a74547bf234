// The host loops that run a kernel's threads one instruction at a time
// (models/systemc/integration/kernel_bridge.cpp:349-586), over any behaviour of
// the threads themselves.

module KernelBridge {
  import opened Sums
  import Numbers

  /** What a thread's next instruction does to its scheduling state. */
  datatype Outcome = Continues | Halts | Waits(id: nat)

  /** Thread w's instruction at global cycle t. */
  type Behaviour = (nat, nat) -> Outcome

  /** `did` is what the thread's instructions so far have done, in order; the program
      keeps no such record, and no decision here looks at it. */
  datatype Worker = Worker(block: nat, active: bool, halted: bool, blocked: bool, barrier: nat, cycles: nat, did: seq<Outcome>)

  /** What a run fixes. */
  datatype Plan = Plan(next: Behaviour, perBlock: nat, maxCycles: nat)

  predicate Runnable(w: Worker) { w.active && !w.halted && !w.blocked }

  /** `ComputeUnit::step` in binary mode. */
  function Stepped(p: Plan, w: Worker, outcome: Outcome): Worker {
    if w.halted || w.blocked then w
    else if p.maxCycles > 0 && w.cycles >= p.maxCycles then w.(halted := true)
    else
      var after := w.(cycles := w.cycles + 1, did := w.did + [outcome]);
      match outcome
      case Continues => after
      case Halts => after.(halted := true)
      case Waits(id) => after.(blocked := true, barrier := id)
  }

  // ----- What a thread has met -----

  /** The barriers among these outcomes, in order. */
  function Met(did: seq<Outcome>): seq<nat> {
    if did == [] then []
    else Met(did[..|did| - 1]) + match did[|did| - 1] case Waits(id) => [id] case _ => []
  }

  /** The barriers a thread has got past: all it met but the one it waits on. */
  function Past(w: Worker): seq<nat> {
    if w.blocked && w.did != [] then Met(w.did[..|w.did| - 1]) else Met(w.did)
  }

  predicate LastIs(w: Worker, outcome: Outcome) { w.did != [] && w.did[|w.did| - 1] == outcome }

  /** A thread's flags say what its instructions did. */
  predicate Sound(p: Plan, w: Worker) {
    && w.cycles == |w.did| <= p.maxCycles
    && (w.blocked ==> w.active && !w.halted && LastIs(w, Waits(w.barrier)))
    && (w.halted ==> LastIs(w, Halts) || |w.did| == p.maxCycles)
    && (LastIs(w, Halts) ==> w.halted)
  }

  /** Threads of one block have got past the same barriers, in the same order. */
  predicate Together(ws: seq<Worker>) {
    forall j, k :: 0 <= j < |ws| && 0 <= k < |ws| && ws[j].block == ws[k].block ==> Past(ws[j]) == Past(ws[k])
  }

  lemma StepSound(p: Plan, w: Worker, outcome: Outcome)
    requires Sound(p, w) && Runnable(w) && p.maxCycles > 0
    ensures var u := Stepped(p, w, outcome);
            Sound(p, u) && Past(u) == Past(w)
            && u.did == if |w.did| < p.maxCycles then w.did + [outcome] else w.did
  {
    assert (w.did + [outcome])[..|w.did|] == w.did;
  }

  /** Thread j's outcomes after a step at this cycle: one more if it can run and has
      cycles left, and otherwise the same. */
  function DidAfter(p: Plan, ws: seq<Worker>, j: nat, cycle: nat): seq<Outcome>
    requires j < |ws|
  {
    if Runnable(ws[j]) && |ws[j].did| < p.maxCycles then ws[j].did + [p.next(j, cycle)] else ws[j].did
  }

  // ----- Barriers -----

  predicate WaitsOn(w: Worker, block: nat, id: nat) { w.active && w.block == block && w.blocked && w.barrier == id }

  function Waiter(block: nat, id: nat): Worker -> int { (w: Worker) => if WaitsOn(w, block, id) then 1 else 0 }

  function Arrived(ws: seq<Worker>, block: nat, id: nat): int { Total(ws, Waiter(block, id)) }

  function ReleasedBy(w: Worker, block: nat, id: nat): Worker {
    if WaitsOn(w, block, id) then w.(blocked := false) else w
  }

  function ReleaseAll(ws: seq<Worker>, block: nat, id: nat): seq<Worker> {
    seq(|ws|, i requires 0 <= i < |ws| => ReleasedBy(ws[i], block, id))
  }

  predicate Full(p: Plan, ws: seq<Worker>, block: nat, id: nat) { Arrived(ws, block, id) == p.perBlock }

  /** If worker i completes its barrier, everyone waiting there goes on. */
  function Settle(p: Plan, ws: seq<Worker>, i: nat): seq<Worker>
    requires i < |ws|
  {
    var w := ws[i];
    if w.active && w.blocked && Full(p, ws, w.block, w.barrier) then ReleaseAll(ws, w.block, w.barrier) else ws
  }

  function Retired(w: Worker): Worker { if w.halted then w.(active := false) else w }

  function InBlock(block: nat): Worker -> int { (w: Worker) => if w.block == block then 1 else 0 }

  /** Every block has exactly its number of threads; retired threads stay in their block. */
  ghost predicate Sized(p: Plan, ws: seq<Worker>) {
    p.perBlock > 0 && forall b: nat :: (exists i :: 0 <= i < |ws| && ws[i].block == b) ==> Total(ws, InBlock(b)) == p.perBlock
  }

  predicate SameBlocks(ws: seq<Worker>, us: seq<Worker>) {
    |us| == |ws| && forall i :: 0 <= i < |ws| ==> us[i].block == ws[i].block
  }

  lemma SizedKept(p: Plan, ws: seq<Worker>, us: seq<Worker>)
    requires Sized(p, ws) && SameBlocks(ws, us)
    ensures Sized(p, us)
  {
    forall b: nat | exists i :: 0 <= i < |us| && us[i].block == b ensures Total(us, InBlock(b)) == p.perBlock {
      var i :| 0 <= i < |us| && us[i].block == b;
      assert ws[i].block == b;
      TotalSame(ws, us, InBlock(b), InBlock(b));
    }
  }

  /** A barrier is full exactly when every thread of the block waits on it. */
  lemma FullMeansAll(p: Plan, ws: seq<Worker>, block: nat, id: nat)
    requires Sized(p, ws) && exists i :: 0 <= i < |ws| && ws[i].block == block
    ensures Full(p, ws, block, id) <==> forall j :: 0 <= j < |ws| && ws[j].block == block ==> WaitsOn(ws[j], block, id)
    ensures Arrived(ws, block, id) <= p.perBlock
  {
    TotalWithin(ws, ws, Waiter(block, id), InBlock(block));
    if Full(p, ws, block, id) {
      TotalTight(ws, ws, Waiter(block, id), InBlock(block));
      forall j | 0 <= j < |ws| && ws[j].block == block ensures WaitsOn(ws[j], block, id) {
        assert Waiter(block, id)(ws[j]) == InBlock(block)(ws[j]);
      }
    }
    if forall j :: 0 <= j < |ws| && ws[j].block == block ==> WaitsOn(ws[j], block, id) {
      TotalSame(ws, ws, Waiter(block, id), InBlock(block));
    }
  }

  /** A thread leaves a barrier only when that barrier is what the last instruction of
      every thread of its block met, and then all leave. */
  lemma LeavesOnlyTogether(p: Plan, ws: seq<Worker>, i: nat, j: nat, id: nat)
    requires Sized(p, ws) && (forall k :: 0 <= k < |ws| ==> Sound(p, ws[k])) && i < |ws| && j < |ws|
    requires LastIs(ws[j], Waits(id)) && ws[j].blocked && !Settle(p, ws, i)[j].blocked
    ensures forall k :: 0 <= k < |ws| && ws[k].block == ws[j].block ==>
      LastIs(ws[k], Waits(id)) && ws[k].blocked && !Settle(p, ws, i)[k].blocked
  {
    var w := ws[i];
    FullMeansAll(p, ws, w.block, w.barrier);
    assert WaitsOn(ws[j], w.block, w.barrier) && Sound(p, ws[j]);
    forall k | 0 <= k < |ws| && ws[k].block == ws[j].block
      ensures LastIs(ws[k], Waits(id)) && ws[k].blocked && !Settle(p, ws, i)[k].blocked
    {
      assert WaitsOn(ws[k], w.block, w.barrier) && Sound(p, ws[k]);
    }
  }

  /** No barrier is complete and still held. */
  predicate NoneFull(p: Plan, ws: seq<Worker>) {
    forall i :: 0 <= i < |ws| && ws[i].active && ws[i].blocked ==> Arrived(ws, ws[i].block, ws[i].barrier) < p.perBlock
  }

  lemma ReleaseEmpties(ws: seq<Worker>, block: nat, id: nat, b: nat, k: nat)
    ensures Arrived(ReleaseAll(ws, block, id), b, k) == if b == block && k == id then 0 else Arrived(ws, b, k)
  {
    var us := ReleaseAll(ws, block, id);
    if b == block && k == id {
      TotalZero(us, Waiter(b, k));
    } else {
      TotalSame(ws, us, Waiter(b, k), Waiter(b, k));
    }
  }

  // ----- The scalar loop -----

  /** The body of the scan for one worker. */
  function Visit(p: Plan, ws: seq<Worker>, i: nat, cycle: nat): seq<Worker>
    requires i < |ws|
  {
    if !Runnable(ws[i]) then ws
    else
      var stepped := ws[i := Stepped(p, ws[i], p.next(i, cycle))];
      var settled := Settle(p, stepped, i);
      settled[i := Retired(settled[i])]
  }

  /** Active threads are never halted between instructions, and are within budget. */
  predicate Tidy(p: Plan, w: Worker) { Sound(p, w) && w.active != w.halted }

  predicate AllTidy(p: Plan, ws: seq<Worker>) { forall i :: 0 <= i < |ws| ==> Tidy(p, ws[i]) }

  ghost predicate Inv(p: Plan, ws: seq<Worker>) {
    p.maxCycles > 0 && Sized(p, ws) && AllTidy(p, ws) && NoneFull(p, ws) && Together(ws)
  }

  function Left(max: nat): Worker -> int { (w: Worker) => if w.active && !w.halted then max + 1 - w.cycles else 0 }

  /** Instructions the threads may still execute. */
  function Budget(p: Plan, ws: seq<Worker>): int { Total(ws, Left(p.maxCycles)) }

  lemma BudgetNatural(p: Plan, ws: seq<Worker>)
    requires AllTidy(p, ws)
    ensures Budget(p, ws) >= 0
  {
    var zeros := seq(|ws|, _ => 0);
    TotalZero(zeros, Itself);
    TotalWithin(zeros, ws, Itself, Left(p.maxCycles));
  }

  // Only worker i's own barrier gains a waiter when i steps.
  lemma StepArrivals(p: Plan, ws: seq<Worker>, i: nat, outcome: Outcome, b: nat, k: nat)
    requires i < |ws| && Runnable(ws[i])
    ensures var us := ws[i := Stepped(p, ws[i], outcome)];
            Arrived(us, b, k) == Arrived(ws, b, k) + if WaitsOn(us[i], b, k) then 1 else 0
  {
    TotalUpdate(ws, i, Stepped(p, ws[i], outcome), Waiter(b, k));
  }

  lemma SettleKeeps(p: Plan, ws: seq<Worker>, i: nat)
    requires i < |ws|
    ensures SameBlocks(ws, Settle(p, ws, i))
    ensures forall j :: 0 <= j < |ws| ==> Settle(p, ws, i)[j] == ws[j] || Settle(p, ws, i)[j] == ws[j].(blocked := false)
    ensures Budget(p, Settle(p, ws, i)) == Budget(p, ws)
  {
    var us := Settle(p, ws, i);
    TotalSame(ws, us, Left(p.maxCycles), Left(p.maxCycles));
  }

  // Stepping a thread takes it past no barrier; a release takes its whole block past one.
  lemma SteppedTogether(p: Plan, ws: seq<Worker>, i: nat, outcome: Outcome)
    requires i < |ws| && Runnable(ws[i]) && Sound(p, ws[i]) && p.maxCycles > 0 && Together(ws)
    ensures Together(ws[i := Stepped(p, ws[i], outcome)])
  {
    hide Past, Sound;
    StepSound(p, ws[i], outcome);
  }

  lemma SettleTogether(p: Plan, ws: seq<Worker>, i: nat)
    requires i < |ws| && Sized(p, ws) && Together(ws) && forall j :: 0 <= j < |ws| ==> Sound(p, ws[j])
    ensures Together(Settle(p, ws, i))
    ensures forall j :: 0 <= j < |ws| ==> Sound(p, Settle(p, ws, i)[j]) && Settle(p, ws, i)[j].did == ws[j].did
  {
    hide Past, Sized, Arrived;
    var w, us := ws[i], Settle(p, ws, i);
    FullMeansAll(p, ws, w.block, w.barrier);
    forall j | 0 <= j < |ws| ensures us[j].did == ws[j].did && Sound(p, us[j])
      && Past(us[j]) == if us[j] != ws[j] then Past(ws[j]) + [w.barrier] else Past(ws[j])
    {
      ReleasedPast(p, ws[j], w.block, w.barrier);
    }
  }

  lemma ReleasedPast(p: Plan, w: Worker, block: nat, id: nat)
    requires Sound(p, w)
    ensures var u := ReleasedBy(w, block, id);
            Sound(p, u) && u.did == w.did && Past(u) == if u != w then Past(w) + [id] else Past(w)
  {
  }

  // After one step and its settling no barrier is complete.
  lemma SettleNoneFull(p: Plan, ws: seq<Worker>, i: nat, outcome: Outcome)
    requires Inv(p, ws) && i < |ws| && Runnable(ws[i])
    ensures NoneFull(p, Settle(p, ws[i := Stepped(p, ws[i], outcome)], i))
  {
    var us := ws[i := Stepped(p, ws[i], outcome)];
    var vs := Settle(p, us, i);
    SizedKept(p, ws, us);
    forall j | 0 <= j < |vs| && vs[j].active && vs[j].blocked ensures Arrived(vs, vs[j].block, vs[j].barrier) < p.perBlock {
      var b, k := vs[j].block, vs[j].barrier;
      assert us[j].block == b && us[j].barrier == k && us[j].active && us[j].blocked;
      FullMeansAll(p, us, b, k);
      StepArrivals(p, ws, i, outcome, b, k);
      if us[i].active && us[i].blocked && Full(p, us, us[i].block, us[i].barrier) {
        ReleaseEmpties(us, us[i].block, us[i].barrier, b, k);
      }
      if !WaitsOn(us[i], b, k) {
        assert j != i;
        assert ws[j] == us[j];
      }
    }
  }

  /** Visiting a worker keeps the invariant; if it ran, some budget is spent. */
  lemma VisitKeeps(p: Plan, ws: seq<Worker>, i: nat, cycle: nat)
    requires Inv(p, ws) && i < |ws|
    ensures Inv(p, Visit(p, ws, i, cycle)) && |Visit(p, ws, i, cycle)| == |ws|
    ensures Runnable(ws[i]) ==> Budget(p, Visit(p, ws, i, cycle)) < Budget(p, ws)
  {
    hide Arrived, Sized, Past, Together, DidAfter, Settle;
    if Runnable(ws[i]) {
      assert Tidy(p, ws[i]);
      var outcome := p.next(i, cycle);
      var us := ws[i := Stepped(p, ws[i], outcome)];
      var vs := Settle(p, us, i);
      SettleKeeps(p, us, i);
      var rs := vs[i := Retired(vs[i])];
      StepSound(p, ws[i], outcome);
      SteppedTogether(p, ws, i, outcome);
      SizedKept(p, ws, us);
      SettleTogether(p, us, i);
      RetireTogether(vs, rs);
      SettleNoneFull(p, ws, i, outcome);
      SizedKept(p, ws, rs);
      TotalUpdate(ws, i, us[i], Left(p.maxCycles));
      TotalUpdate(vs, i, rs[i], Left(p.maxCycles));
      RetireArrivals(p, vs, i);
    }
  }

  /** A visit adds the outcome of the visited thread's instruction to what it did. */
  lemma VisitRecords(p: Plan, ws: seq<Worker>, i: nat, cycle: nat)
    requires Inv(p, ws) && i < |ws|
    ensures |Visit(p, ws, i, cycle)| == |ws|
    ensures forall j :: 0 <= j < |ws| ==> Visit(p, ws, i, cycle)[j].did == if j == i then DidAfter(p, ws, i, cycle) else ws[j].did
  {
    hide Arrived, Sized, Together, NoneFull, Stepped, Sound;
    if Runnable(ws[i]) {
      assert Tidy(p, ws[i]);
      StepSound(p, ws[i], p.next(i, cycle));
      SettleKeeps(p, ws[i := Stepped(p, ws[i], p.next(i, cycle))], i);
    }
  }

  lemma RetireTogether(ws: seq<Worker>, us: seq<Worker>)
    requires Together(ws) && |us| == |ws| && forall i :: 0 <= i < |ws| ==> us[i] == ws[i] || us[i] == Retired(ws[i])
    ensures Together(us)
  {
    forall j | 0 <= j < |ws| ensures Past(us[j]) == Past(ws[j]) {
    }
  }

  lemma RetireArrivals(p: Plan, ws: seq<Worker>, i: nat)
    requires NoneFull(p, ws) && i < |ws| && (ws[i].halted ==> !ws[i].blocked)
    ensures NoneFull(p, ws[i := Retired(ws[i])])
  {
    var us := ws[i := Retired(ws[i])];
    forall j | 0 <= j < |us| && us[j].active && us[j].blocked ensures Arrived(us, us[j].block, us[j].barrier) < p.perBlock {
      TotalUpdate(ws, i, us[i], Waiter(us[j].block, us[j].barrier));
    }
  }

  /** What one pass of the scalar loop has done so far. */
  datatype Pass = Pass(ws: seq<Worker>, any: bool, progress: bool, selected: nat, cycle: nat)

  function ScanOne(p: Plan, a: Pass, i: nat): Pass
    requires i < |a.ws|
  {
    if !a.ws[i].active then a
    else if a.ws[i].blocked then a.(any := true)
    else Pass(Visit(p, a.ws, i, a.cycle), true, true, a.selected + 1, a.cycle + 1)
  }

  lemma ScanOneShape(p: Plan, a: Pass, i: nat)
    requires i < |a.ws|
    ensures |ScanOne(p, a, i).ws| == |a.ws|
  {
  }

  function Place(n: nat, cursor: nat, k: nat): (i: nat)
    requires n > 0
    ensures i < n
  {
    (cursor + k) % n
  }

  /** Workers in turn from the cursor on, until `units` have run or all were seen. */
  function Scan(p: Plan, units: nat, cursor: nat, a: Pass, k: nat): Pass
    requires k <= |a.ws|
    decreases |a.ws| - k
  {
    if k == |a.ws| || a.selected >= units then a
    else
      var next := ScanOne(p, a, Place(|a.ws|, cursor, k));
      ScanOneShape(p, a, Place(|a.ws|, cursor, k));
      Scan(p, units, cursor, next, k + 1)
  }

  lemma ScanOneKeeps(p: Plan, a: Pass, i: nat)
    requires Inv(p, a.ws) && i < |a.ws|
    ensures var b := ScanOne(p, a, i);
            && Inv(p, b.ws) && |b.ws| == |a.ws|
            && Budget(p, b.ws) <= Budget(p, a.ws)
            && (if Runnable(a.ws[i]) then b.progress && b.selected == a.selected + 1 && Budget(p, b.ws) < Budget(p, a.ws)
                else b.ws == a.ws && b.progress == a.progress && b.selected == a.selected)
            && b.any == (a.any || a.ws[i].active) && b.cycle - a.cycle == b.selected - a.selected
  {
    VisitKeeps(p, a.ws, i, a.cycle);
    assert Tidy(p, a.ws[i]);
  }

  lemma {:induction false} ScanKeeps(p: Plan, units: nat, cursor: nat, a: Pass, k: nat)
    requires Inv(p, a.ws) && k <= |a.ws|
    ensures var b := Scan(p, units, cursor, a, k);
            && Inv(p, b.ws) && |b.ws| == |a.ws| && Budget(p, b.ws) <= Budget(p, a.ws)
            && (a.any ==> b.any) && (a.progress ==> b.progress) && b.cycle - a.cycle == b.selected - a.selected
            && (b.progress && !a.progress ==> Budget(p, b.ws) < Budget(p, a.ws))
    decreases |a.ws| - k
  {
    hide Inv, Budget, ScanOne;
    if k < |a.ws| && a.selected < units {
      var i := Place(|a.ws|, cursor, k);
      ScanOneKeeps(p, a, i);
      ScanKeeps(p, units, cursor, ScanOne(p, a, i), k + 1);
    }
  }

  /** A pass without progress has seen every worker, ran none and changed none. */
  lemma {:induction false} ScanIdle(p: Plan, units: nat, cursor: nat, a: Pass, k: nat)
    requires Inv(p, a.ws) && k <= |a.ws| && a.selected == 0 < units && !a.progress
    requires !Scan(p, units, cursor, a, k).progress
    ensures var b := Scan(p, units, cursor, a, k);
            && b.ws == a.ws
            && (forall j :: k <= j < |a.ws| ==> !Runnable(a.ws[Place(|a.ws|, cursor, j)]))
            && (b.any <==> a.any || exists j :: k <= j < |a.ws| && a.ws[Place(|a.ws|, cursor, j)].active)
    decreases |a.ws| - k
  {
    hide Inv, Budget, ScanOne, Place, Runnable;
    if k < |a.ws| {
      var i := Place(|a.ws|, cursor, k);
      var next := ScanOne(p, a, i);
      ScanOneKeeps(p, a, i);
      ScanKeeps(p, units, cursor, next, k + 1);
      ScanIdle(p, units, cursor, next, k + 1);
    }
  }

  /** The places of one pass are all the workers. */
  lemma EveryPlace(n: nat, cursor: nat, i: nat)
    requires i < n && cursor < n
    ensures exists k :: 0 <= k < n && Place(n, cursor, k) == i
  {
    AheadPlace(n, cursor, i);
  }

  /** Some thread of j's block has not met the barriers thread j has met. */
  ghost predicate Held(ws: seq<Worker>, j: nat)
    requires j < |ws|
  {
    exists k :: 0 <= k < |ws| && ws[k].block == ws[j].block && !(Met(ws[j].did) <= Met(ws[k].did))
  }

  /** Barriers do what they are for: a thread waits exactly as long as some thread of its
      block has not met the same barriers, and runs only when all of them have. */
  lemma BlockedIffHeld(p: Plan, ws: seq<Worker>, j: nat)
    requires Inv(p, ws) && j < |ws|
    ensures ws[j].blocked <==> Held(ws, j)
    ensures ws[j].blocked ==> exists id :: LastIs(ws[j], Waits(id))
  {
    hide Met, Sized, Arrived;
    var w := ws[j];
    assert forall k :: 0 <= k < |ws| && ws[k].block == w.block ==> Past(ws[k]) == Past(w) && Tidy(p, ws[k]);
    if w.blocked {
      FullMeansAll(p, ws, w.block, w.barrier);
      var k :| 0 <= k < |ws| && ws[k].block == w.block && !WaitsOn(ws[k], w.block, w.barrier);
      MetPast(p, w);
      MetPast(p, ws[k]);
      assert Met(w.did)[|Past(w)|] == w.barrier;
      assert ws[k].blocked ==> Met(ws[k].did)[|Past(w)|] == ws[k].barrier != w.barrier;
    } else {
      forall k | 0 <= k < |ws| && ws[k].block == w.block ensures Met(w.did) <= Met(ws[k].did) {
        MetPast(p, w);
        MetPast(p, ws[k]);
      }
    }
  }

  // A waiting thread has met one barrier more than it got past.
  lemma MetPast(p: Plan, w: Worker)
    requires Sound(p, w)
    ensures Met(w.did) == if w.blocked then Past(w) + [w.barrier] else Past(w)
  {
  }

  /** Somebody is not done, and everyone who is not waits for a thread of its block. */
  ghost predicate Deadlocked(ws: seq<Worker>) {
    && (exists i :: 0 <= i < |ws| && ws[i].active)
    && forall i :: 0 <= i < |ws| && ws[i].active ==> Held(ws, i)
  }

  lemma DeadlockedFlags(p: Plan, ws: seq<Worker>)
    requires Inv(p, ws)
    ensures Deadlocked(ws) <==> (exists i :: 0 <= i < |ws| && ws[i].active) && forall i :: 0 <= i < |ws| && ws[i].active ==> ws[i].blocked
  {
    hide Held, Inv;
    forall i | 0 <= i < |ws| ensures ws[i].blocked <==> Held(ws, i) {
      BlockedIffHeld(p, ws, i);
    }
  }

  /** When all are complete every thread has halted or used its budget up, and the
      threads of one block have met the same barriers in the same order. */
  lemma CompleteMeans(p: Plan, ws: seq<Worker>)
    requires Inv(p, ws) && AllComplete(ws)
    ensures forall i :: 0 <= i < |ws| ==> LastIs(ws[i], Halts) || |ws[i].did| == p.maxCycles
    ensures forall i, j :: 0 <= i < |ws| && 0 <= j < |ws| && ws[i].block == ws[j].block ==> Met(ws[i].did) == Met(ws[j].did)
  {
    hide Met, Sized, NoneFull;
    forall i | 0 <= i < |ws| ensures Met(ws[i].did) == Past(ws[i]) && (LastIs(ws[i], Halts) || |ws[i].did| == p.maxCycles) {
      assert Tidy(p, ws[i]);
    }
  }

  predicate AllComplete(ws: seq<Worker>) { forall i :: 0 <= i < |ws| ==> ws[i].halted && !ws[i].active }

  /** The loop's verdict after a pass is exact: it stops without failure exactly when
      every worker is complete, and reports a deadlock exactly when none can run
      and some are not. */
  lemma ScalarVerdict(p: Plan, units: nat, cursor: nat, ws: seq<Worker>, cycle: nat)
    requires Inv(p, ws) && 0 < units && cursor < |ws|
    ensures var b := Scan(p, units, cursor, Pass(ws, false, false, 0, cycle), 0);
            && (!b.any <==> AllComplete(ws)) && (!b.any ==> b.ws == ws)
            && (b.any && !b.progress <==> Deadlocked(ws)) && (!b.progress ==> b.ws == ws)
            && (b.progress <==> exists i :: 0 <= i < |ws| && Runnable(ws[i]))
  {
    hide Sized, NoneFull, ScanOne, Together, Deadlocked, Sound;
    DeadlockedFlags(p, ws);
    var n, a := |ws|, Pass(ws, false, false, 0, cycle);
    var b := Scan(p, units, cursor, a, 0);
    forall i | 0 <= i < n ensures Tidy(p, ws[i]) && exists k :: 0 <= k < n && Place(n, cursor, k) == i {
      EveryPlace(n, cursor, i);
    }
    ProgressIsSeen(p, units, cursor, a, 0);
    if !b.progress {
      ScanIdle(p, units, cursor, a, 0);
    } else {
      ProgressRan(p, units, cursor, a, 0);
    }
  }

  lemma {:induction false} ProgressIsSeen(p: Plan, units: nat, cursor: nat, a: Pass, k: nat)
    requires k <= |a.ws| && (a.progress ==> a.any)
    ensures Scan(p, units, cursor, a, k).progress ==> Scan(p, units, cursor, a, k).any
    decreases |a.ws| - k
  {
    hide Visit, Place;
    if k < |a.ws| && a.selected < units {
      ScanOneShape(p, a, Place(|a.ws|, cursor, k));
      ProgressIsSeen(p, units, cursor, ScanOne(p, a, Place(|a.ws|, cursor, k)), k + 1);
    }
  }

  lemma {:induction false} ProgressRan(p: Plan, units: nat, cursor: nat, a: Pass, k: nat)
    requires Inv(p, a.ws) && k <= |a.ws| && !a.progress && Scan(p, units, cursor, a, k).progress
    ensures exists j :: k <= j < |a.ws| && Runnable(a.ws[Place(|a.ws|, cursor, j)])
    decreases |a.ws| - k
  {
    hide Inv, Budget, ScanOne, Place, Runnable;
    if k < |a.ws| && a.selected < units {
      var i := Place(|a.ws|, cursor, k);
      ScanOneKeeps(p, a, i);
      if !Runnable(a.ws[i]) {
        ProgressRan(p, units, cursor, ScanOne(p, a, i), k + 1);
      }
    }
  }

  // ----- Fairness of the scalar loop -----

  /** What has been scanned when the k-th place is reached. */
  function ScanTo(p: Plan, units: nat, cursor: nat, a: Pass, k: nat): Pass
    requires k <= |a.ws|
  {
    if k == 0 then a
    else
      var b := ScanTo(p, units, cursor, a, k - 1);
      if |b.ws| != |a.ws| || b.selected >= units then b else ScanOne(p, b, Place(|b.ws|, cursor, k - 1))
  }

  /** The first `units` places of a pass are always reached: whoever is there and
      can run when its turn comes, runs. */
  lemma {:induction false} FirstPlacesReached(p: Plan, units: nat, cursor: nat, ws: seq<Worker>, cycle: nat, k: nat)
    requires Inv(p, ws) && k < units && k < |ws|
    ensures var a := Pass(ws, false, false, 0, cycle);
            var b, c := ScanTo(p, units, cursor, a, k), ScanTo(p, units, cursor, a, k + 1);
            && |b.ws| == |ws| && b.selected <= k && Inv(p, b.ws)
            && c == ScanOne(p, b, Place(|ws|, cursor, k))
            && (Runnable(b.ws[Place(|ws|, cursor, k)]) ==> c.progress && Budget(p, c.ws) < Budget(p, b.ws))
            && Scan(p, units, cursor, a, 0) == Scan(p, units, cursor, c, k + 1)
    decreases k
  {
    hide Inv, Budget, ScanOne, Place;
    var a := Pass(ws, false, false, 0, cycle);
    if k > 0 {
      FirstPlacesReached(p, units, cursor, ws, cycle, k - 1);
      ScanOneKeeps(p, ScanTo(p, units, cursor, a, k - 1), Place(|ws|, cursor, k - 1));
    }
    var b := ScanTo(p, units, cursor, a, k);
    ScanOneKeeps(p, b, Place(|ws|, cursor, k));
  }

  /** Cursor after r passes. */
  function CursorAfter(n: nat, units: nat, cursor: nat, r: nat): (c: nat)
    requires cursor < n
    ensures c < n
  {
    if r == 0 then cursor else (CursorAfter(n, units, cursor, r - 1) + units) % n
  }

  /** Passes until a cursor moving `units` places covers n of them. */
  function Rounds(n: nat, units: nat): nat
    requires 0 < units
  {
    (n + units - 1) / units
  }

  /** That many passes cover n places, and one fewer does not. */
  lemma RoundsCover(n: nat, units: nat)
    requires 0 < n && 0 < units
    ensures Rounds(n, units) > 0 && (Rounds(n, units) - 1) * units < n <= Rounds(n, units) * units
  {
    var q, x := Rounds(n, units), n + units - 1;
    Numbers.Placement(units, x % units, q, x);
    assert (q - 1) * units == q * units - units;
  }

  /** How many places worker i is ahead of the cursor. */
  function Ahead(n: nat, cursor: nat, i: nat): (k: nat)
    requires cursor < n && i < n
    ensures k < n
  {
    if cursor <= i then i - cursor else i + n - cursor
  }

  lemma AheadPlace(n: nat, cursor: nat, i: nat)
    requires cursor < n && i < n
    ensures Place(n, cursor, Ahead(n, cursor, i)) == i
  {
    assert cursor + Ahead(n, cursor, i) == i || cursor + Ahead(n, cursor, i) == i + n;
  }

  lemma CursorMoves(n: nat, units: nat, cursor: nat, i: nat)
    requires cursor < n && i < n && 0 < units <= Ahead(n, cursor, i)
    ensures var c := (cursor + units) % n; c < n && Ahead(n, c, i) == Ahead(n, cursor, i) - units
  {
    if cursor + units >= n {
      assert cursor + units < n + n;
      assert (cursor + units) % n == cursor + units - n by { Numbers.Placement(n, cursor + units - n, 1, cursor + units); }
    }
  }

  lemma {:induction false} CursorCatchesUp(n: nat, units: nat, cursor: nat, i: nat, r: nat)
    requires cursor < n && i < n && 0 < units && r * units <= Ahead(n, cursor, i)
    ensures Ahead(n, CursorAfter(n, units, cursor, r), i) == Ahead(n, cursor, i) - r * units
  {
    if r > 0 {
      assert (r - 1) * units == r * units - units;
      CursorCatchesUp(n, units, cursor, i, r - 1);
      CursorMoves(n, units, CursorAfter(n, units, cursor, r - 1), i);
    }
  }

  lemma QuotientBelow(n: nat, units: nat, x: nat)
    requires 0 < units && x < n
    ensures var q := x / units; q * units <= x < q * units + units && q < Rounds(n, units)
  {
    var q, top := x / units, Rounds(n, units);
    Numbers.Placement(units, x % units, q, x);
    Numbers.Placement(units, (n + units - 1) % units, top, n + units - 1);
    if top < q {
      Numbers.Multiples(top, q, units);
    }
  }

  /** Every worker is among the first `units` places within ceil(n / units) passes. */
  lemma ReachedWithin(n: nat, units: nat, cursor: nat, i: nat)
    requires cursor < n && i < n && 0 < units
    ensures exists r :: 0 <= r < Rounds(n, units) && Ahead(n, CursorAfter(n, units, cursor, r), i) < units
  {
    var x := Ahead(n, cursor, i);
    var r := x / units;
    QuotientBelow(n, units, x);
    CursorCatchesUp(n, units, cursor, i, r);
  }

  lemma {:induction false} CursorAdds(n: nat, units: nat, cursor: nat, q: nat, r: nat)
    requires cursor < n
    ensures CursorAfter(n, units, cursor, q + r) == CursorAfter(n, units, CursorAfter(n, units, cursor, q), r)
    decreases r
  {
    if r > 0 {
      CursorAdds(n, units, cursor, q, r - 1);
      assert q + r - 1 == q + (r - 1);
    }
  }

  /** Workers and cycle count after r passes of the scalar loop. */
  function PassesDone(p: Plan, units: nat, ws: seq<Worker>, r: nat): (done: (seq<Worker>, nat))
    requires ws != []
    ensures |done.0| == |ws|
    decreases r
  {
    if r == 0 then (ws, 0)
    else
      var (us, cycle) := PassesDone(p, units, ws, r - 1);
      var b := Scan(p, units, CursorAfter(|ws|, units, 0, r - 1), Pass(us, false, false, 0, cycle), 0);
      ScanShape(p, units, CursorAfter(|ws|, units, 0, r - 1), Pass(us, false, false, 0, cycle), 0);
      (b.ws, b.cycle)
  }

  lemma {:induction false} ScanShape(p: Plan, units: nat, cursor: nat, a: Pass, k: nat)
    requires k <= |a.ws|
    ensures |Scan(p, units, cursor, a, k).ws| == |a.ws|
    decreases |a.ws| - k
  {
    hide ScanOne, Place;
    if k < |a.ws| && a.selected < units {
      ScanOneShape(p, a, Place(|a.ws|, cursor, k));
      ScanShape(p, units, cursor, ScanOne(p, a, Place(|a.ws|, cursor, k)), k + 1);
    }
  }

  lemma {:induction false} PassesKeep(p: Plan, units: nat, ws: seq<Worker>, r: nat)
    requires Inv(p, ws) && ws != []
    ensures Inv(p, PassesDone(p, units, ws, r).0)
    decreases r
  {
    hide Inv, Scan;
    if r > 0 {
      PassesKeep(p, units, ws, r - 1);
      var (us, cycle) := PassesDone(p, units, ws, r - 1);
      ScanKeeps(p, units, CursorAfter(|ws|, units, 0, r - 1), Pass(us, false, false, 0, cycle), 0);
    }
  }

  /** Worker i is reached as the k-th place of pass r: what was scanned before it, and
      with it, are stages of that pass, and it runs if it can. */
  ghost predicate Reached(p: Plan, units: nat, ws: seq<Worker>, r: nat, k: nat, i: nat)
    requires ws != [] && k < |ws| && i < |ws|
  {
    var (us, cycle) := PassesDone(p, units, ws, r);
    var cursor, a := CursorAfter(|ws|, units, 0, r), Pass(us, false, false, 0, cycle);
    var b, c := ScanTo(p, units, cursor, a, k), ScanTo(p, units, cursor, a, k + 1);
    && |b.ws| == |c.ws| == |ws| && c == ScanOne(p, b, i)
    && (Runnable(b.ws[i]) ==> c.ws == Visit(p, b.ws, i, b.cycle) && c.progress)
    && PassesDone(p, units, ws, r + 1) == (Scan(p, units, cursor, c, k + 1).ws, Scan(p, units, cursor, c, k + 1).cycle)
  }

  /** From any pass of the loop on, every worker is reached within ceil(n / units)
      passes, and steps if it can run then. */
  lemma EveryWorkerTurns(p: Plan, units: nat, ws: seq<Worker>, q: nat, i: nat) returns (r: nat, k: nat)
    requires Inv(p, ws) && 0 < units && i < |ws|
    ensures q <= r < q + Rounds(|ws|, units) && k < units && k < |ws| && Reached(p, units, ws, r, k, i)
  {
    hide Inv, Scan, ScanTo, Visit, CursorAfter, Ahead, Rounds, Place, Budget;
    var n := |ws|;
    var cursor := CursorAfter(n, units, 0, q);
    ReachedWithin(n, units, cursor, i);
    var d :| 0 <= d < Rounds(n, units) && Ahead(n, CursorAfter(n, units, cursor, d), i) < units;
    CursorAdds(n, units, 0, q, d);
    r := q + d;
    var here := CursorAfter(n, units, 0, r);
    k := Ahead(n, here, i);
    AheadPlace(n, here, i);
    PassesKeep(p, units, ws, r);
    var (us, cycle) := PassesDone(p, units, ws, r);
    FirstPlacesReached(p, units, here, us, cycle, k);
    var a := Pass(us, false, false, 0, cycle);
    ScanOneShape(p, ScanTo(p, units, here, a, k), i);
  }

  // ----- The warp loop -----

  function StepRunnable(p: Plan, ws: seq<Worker>, i: nat, cycle: nat): seq<Worker>
    requires i < |ws|
  {
    if Runnable(ws[i]) then ws[i := Stepped(p, ws[i], p.next(i, cycle))] else ws
  }

  /** All runnable threads from i up to hi take one step. */
  function StepRange(p: Plan, ws: seq<Worker>, i: nat, hi: nat, cycle: nat): (us: seq<Worker>)
    requires i <= hi <= |ws|
    ensures |us| == |ws|
    decreases hi - i
  {
    if i == hi then ws else StepRange(p, StepRunnable(p, ws, i, cycle), i + 1, hi, cycle)
  }

  function SettleRange(p: Plan, ws: seq<Worker>, i: nat, hi: nat): (us: seq<Worker>)
    requires i <= hi <= |ws|
    ensures |us| == |ws|
    decreases hi - i
  {
    if i == hi then ws else SettleRange(p, Settle(p, ws, i), i + 1, hi)
  }

  function RetireRange(ws: seq<Worker>, lo: nat, hi: nat): (us: seq<Worker>)
    requires lo <= hi <= |ws|
    ensures |us| == |ws|
  {
    seq(|ws|, i requires 0 <= i < |ws| => if lo <= i < hi then Retired(ws[i]) else ws[i])
  }

  /** One warp's turn: step together, settle barriers, retire the finished. */
  function GroupTurn(p: Plan, ws: seq<Worker>, lo: nat, hi: nat, cycle: nat): (us: seq<Worker>)
    requires lo <= hi <= |ws|
    ensures |us| == |ws|
  {
    RetireRange(SettleRange(p, StepRange(p, ws, lo, hi, cycle), lo, hi), lo, hi)
  }

  // Between stepping and retiring a thread may be halted and still active.
  predicate Loose(p: Plan, w: Worker) { Sound(p, w) && (!w.active ==> w.halted) }

  predicate AllLoose(p: Plan, ws: seq<Worker>) { forall i :: 0 <= i < |ws| ==> Loose(p, ws[i]) }

  predicate SomeRunnable(ws: seq<Worker>, lo: nat, hi: nat) {
    exists i :: lo <= i < hi && i < |ws| && Runnable(ws[i])
  }

  lemma {:induction false} StepRangeKeeps(p: Plan, ws: seq<Worker>, i: nat, hi: nat, cycle: nat)
    requires i <= hi <= |ws| && AllLoose(p, ws) && p.maxCycles > 0
    ensures var us := StepRange(p, ws, i, hi, cycle);
            && AllLoose(p, us) && SameBlocks(ws, us)
            && (forall j :: 0 <= j < |ws| && !(i <= j < hi) ==> us[j] == ws[j])
            && (forall j :: i <= j < hi ==> us[j].did == DidAfter(p, ws, j, cycle))
            && (Together(ws) ==> Together(us))
            && Budget(p, us) <= Budget(p, ws)
            && (if SomeRunnable(ws, i, hi) then Budget(p, us) < Budget(p, ws) else us == ws)
    decreases hi - i
  {
    hide Stepped, Left, Together, Sound;
    if i < hi {
      var next := StepRunnable(p, ws, i, cycle);
      StepSpends(p, ws, i, cycle);
      StepRangeKeeps(p, next, i + 1, hi, cycle);
      assert forall j :: i + 1 <= j < hi ==> next[j] == ws[j];
      assert SomeRunnable(ws, i, hi) <==> Runnable(ws[i]) || SomeRunnable(next, i + 1, hi);
    }
  }

  lemma StepSpends(p: Plan, ws: seq<Worker>, i: nat, cycle: nat)
    requires i < |ws| && AllLoose(p, ws) && p.maxCycles > 0
    ensures var us := StepRunnable(p, ws, i, cycle);
            && |us| == |ws| && AllLoose(p, us) && SameBlocks(ws, us)
            && us[i].did == DidAfter(p, ws, i, cycle) && (Together(ws) ==> Together(us))
            && (if Runnable(ws[i]) then Budget(p, us) < Budget(p, ws) else us == ws)
  {
    hide Together;
    if Runnable(ws[i]) {
      assert Loose(p, ws[i]);
      StepSound(p, ws[i], p.next(i, cycle));
      if Together(ws) {
        SteppedTogether(p, ws, i, p.next(i, cycle));
      }
      TotalUpdate(ws, i, Stepped(p, ws[i], p.next(i, cycle)), Left(p.maxCycles));
    }
  }

  /** Any barrier that is complete has a waiter among the threads from i to hi. */
  predicate FullOnlyIn(p: Plan, ws: seq<Worker>, i: nat, hi: nat)
    requires i <= hi <= |ws|
  {
    forall j :: 0 <= j < |ws| && ws[j].active && ws[j].blocked && Full(p, ws, ws[j].block, ws[j].barrier) ==>
      WaiterIn(ws, i, hi, ws[j].block, ws[j].barrier)
  }

  predicate WaiterIn(ws: seq<Worker>, i: nat, hi: nat, block: nat, id: nat)
    requires i <= hi <= |ws|
  {
    exists k :: i <= k < hi && WaitsOn(ws[k], block, id)
  }

  lemma StepRangeFull(p: Plan, ws: seq<Worker>, lo: nat, hi: nat, cycle: nat)
    requires lo <= hi <= |ws| && AllLoose(p, ws) && p.maxCycles > 0 && NoneFull(p, ws)
    ensures FullOnlyIn(p, StepRange(p, ws, lo, hi, cycle), lo, hi)
  {
    hide StepRange;
    var us := StepRange(p, ws, lo, hi, cycle);
    StepRangeKeeps(p, ws, lo, hi, cycle);
    forall j | 0 <= j < |us| && us[j].active && us[j].blocked && Full(p, us, us[j].block, us[j].barrier)
      ensures WaiterIn(us, lo, hi, us[j].block, us[j].barrier)
    {
      var b, id := us[j].block, us[j].barrier;
      if !WaiterIn(us, lo, hi, b, id) {
        assert !(lo <= j < hi);
        assert ws[j] == us[j];
        TotalWithin(us, ws, Waiter(b, id), Waiter(b, id));
        assert false;
      }
    }
  }

  lemma SettleFullOnly(p: Plan, ws: seq<Worker>, i: nat, hi: nat)
    requires i < hi <= |ws| && FullOnlyIn(p, ws, i, hi) && p.perBlock > 0
    ensures FullOnlyIn(p, Settle(p, ws, i), i + 1, hi)
  {
    var us := Settle(p, ws, i);
    var w := ws[i];
    forall j | 0 <= j < |us| && us[j].active && us[j].blocked && Full(p, us, us[j].block, us[j].barrier)
      ensures WaiterIn(us, i + 1, hi, us[j].block, us[j].barrier)
    {
      var b, id := us[j].block, us[j].barrier;
      ReleaseEmpties(ws, w.block, w.barrier, b, id);
      assert ws[j].active && ws[j].blocked && ws[j].block == b && ws[j].barrier == id;
      assert Full(p, ws, b, id);
      var k :| i <= k < hi && WaitsOn(ws[k], b, id);
      assert WaitsOn(us[k], b, id);
    }
  }

  lemma {:induction false} SettleRangeKeeps(p: Plan, ws: seq<Worker>, i: nat, hi: nat)
    requires i <= hi <= |ws| && AllLoose(p, ws) && FullOnlyIn(p, ws, i, hi) && Sized(p, ws) && Together(ws)
    ensures var us := SettleRange(p, ws, i, hi);
            && AllLoose(p, us) && SameBlocks(ws, us) && Budget(p, us) == Budget(p, ws) && FullOnlyIn(p, us, hi, hi)
            && Together(us)
            && forall j :: 0 <= j < |ws| ==> us[j].active == ws[j].active && us[j].halted == ws[j].halted && us[j].did == ws[j].did
    decreases hi - i
  {
    hide FullOnlyIn, Settle, Budget, Sound, Sized, Together;
    if i < hi {
      SettleKeeps(p, ws, i);
      SettleTogether(p, ws, i);
      SizedKept(p, ws, Settle(p, ws, i));
      BlocksNotEmpty(p, ws);
      SettleFullOnly(p, ws, i, hi);
      SettleRangeKeeps(p, Settle(p, ws, i), i + 1, hi);
    }
  }

  lemma NothingFull(p: Plan, ws: seq<Worker>, hi: nat)
    requires hi <= |ws| && FullOnlyIn(p, ws, hi, hi) && Sized(p, ws)
    ensures NoneFull(p, ws)
  {
    forall j | 0 <= j < |ws| && ws[j].active && ws[j].blocked ensures Arrived(ws, ws[j].block, ws[j].barrier) < p.perBlock {
      FullMeansAll(p, ws, ws[j].block, ws[j].barrier);
      assert !WaiterIn(ws, hi, hi, ws[j].block, ws[j].barrier);
    }
  }

  // With nothing complete, settling does nothing.
  lemma {:induction false} NothingSettles(p: Plan, ws: seq<Worker>, i: nat, hi: nat)
    requires i <= hi <= |ws| && NoneFull(p, ws)
    ensures SettleRange(p, ws, i, hi) == ws
    decreases hi - i
  {
    if i < hi {
      assert Settle(p, ws, i) == ws;
      NothingSettles(p, ws, i + 1, hi);
    }
  }

  lemma RetireKeeps(p: Plan, ws: seq<Worker>, us: seq<Worker>)
    requires |us| == |ws| && NoneFull(p, ws) && AllLoose(p, ws)
    requires forall i :: 0 <= i < |ws| ==> us[i] == ws[i] || us[i] == Retired(ws[i])
    ensures NoneFull(p, us) && Budget(p, us) == Budget(p, ws) && SameBlocks(ws, us)
  {
    TotalSame(ws, us, Left(p.maxCycles), Left(p.maxCycles));
    forall j | 0 <= j < |us| && us[j].active && us[j].blocked ensures Arrived(us, us[j].block, us[j].barrier) < p.perBlock {
      TotalSame(ws, us, Waiter(us[j].block, us[j].barrier), Waiter(us[j].block, us[j].barrier));
      assert ws[j] == us[j];
    }
  }

  /** A warp's turn keeps the invariant; it spends budget exactly when one of its
      threads could run, and changes nothing otherwise. */
  lemma GroupTurnKeeps(p: Plan, ws: seq<Worker>, lo: nat, hi: nat, cycle: nat)
    requires Inv(p, ws) && lo <= hi <= |ws|
    ensures var us := GroupTurn(p, ws, lo, hi, cycle);
            && Inv(p, us) && SameBlocks(ws, us)
            && (if SomeRunnable(ws, lo, hi) then Budget(p, us) < Budget(p, ws) else us == ws)
            && (forall j :: 0 <= j < |ws| && !(lo <= j < hi) ==> us[j].active == ws[j].active)
            && (forall j :: 0 <= j < |ws| ==> us[j].did == if lo <= j < hi then DidAfter(p, ws, j, cycle) else ws[j].did)
  {
    hide StepRange, SettleRange, Budget, NoneFull, FullOnlyIn, SomeRunnable, Sized, Stepped, Together, DidAfter;
    assert AllLoose(p, ws);
    var a := StepRange(p, ws, lo, hi, cycle);
    var b := SettleRange(p, a, lo, hi);
    var c := GroupTurn(p, ws, lo, hi, cycle);
    StepRangeKeeps(p, ws, lo, hi, cycle);
    StepRangeFull(p, ws, lo, hi, cycle);
    SizedKept(p, ws, a);
    SettleRangeKeeps(p, a, lo, hi);
    SizedKept(p, ws, b);
    NothingFull(p, b, hi);
    RetireKeeps(p, b, c);
    RetireTogether(b, c);
    SizedKept(p, b, c);
    if !SomeRunnable(ws, lo, hi) {
      NothingSettles(p, ws, lo, hi);
    }
  }

  lemma BlocksNotEmpty(p: Plan, ws: seq<Worker>)
    requires Sized(p, ws)
    ensures p.perBlock > 0
  {
  }

}

// Index arithmetic of launches: threads and their coordinates
// (runtime/src/host_runtime.cpp:21-57, models/systemc/integration/kernel_bridge.cpp:275-302),
// and warps and the devices they go to (hls/src/system_top/system_top.h:58-72).

module Numbering {
  import opened Numbers
  import opened Sums
  import opened Slots
  import Safety

  // ----- Threads -----

  function Clamped(n: nat): nat { if n == 0 then 1 else n }

  datatype Extent = Extent(x: nat, y: nat, z: nat)
  {
    // Zero extents count as one.
    function AtLeastOne(): Extent { Extent(Clamped(x), Clamped(y), Clamped(z)) }

    function Volume(): nat { x * y * z }

    predicate Positive() { 0 < x && 0 < y && 0 < z }

    predicate Contains(p: Point) { p.x < x && p.y < y && p.z < z }
  }

  datatype Point = Point(x: nat, y: nat, z: nat)

  datatype Context = Context(tid: Point, ctaid: Point, ntid: Extent)

  /** x runs fastest, then y, then z. */
  function Unravel(e: Extent, i: nat): Point
    requires e.Positive()
  {
    assert 0 < e.x * e.y by { Product(e.x, e.y); }
    Point(i % e.x, i / e.x % e.y, i / (e.x * e.y))
  }

  function Ravel(e: Extent, p: Point): nat { (p.z * e.y + p.y) * e.x + p.x }

  lemma Product(a: nat, b: nat)
    requires 0 < a && 0 < b
    ensures 0 < a * b
  {
  }

  lemma Regroup(z: nat, b: nat, y: nat, a: nat, r: nat)
    ensures (z * b + y) * a + r == z * (a * b) + (y * a + r)
  {
    assert (z * b + y) * a == z * b * a + y * a;
    assert z * b * a == z * (a * b);
  }

  lemma NestedQuotient(i: nat, a: nat, b: nat)
    requires 0 < a && 0 < b
    ensures 0 < a * b && i / (a * b) == i / a / b
  {
    Product(a, b);
    var q, r := i / a, i % a;
    var z, y := q / b, q % b;
    Placement(a, r, q, i);
    Placement(b, y, z, q);
    Regroup(z, b, y, a, r);
    Multiples(y, b, a);
    Placement(a * b, y * a + r, z, i);
  }

  lemma Under(n: nat, z: nat, q: nat, r: nat)
    requires r < n
    ensures q * n + r < z * n <==> q < z
  {
    if q < z {
      Multiples(q, z, n);
    } else if z < q {
      Multiples(z, q, n);
    }
  }

  lemma RowBelow(e: Extent, x: nat, y: nat)
    requires x < e.x && y < e.y
    ensures y * e.x + x < e.x * e.y
  {
    Multiples(y, e.y, e.x);
  }

  /** Coordinates and linear numbers are inverse, over the whole box and nothing else. */
  lemma UnravelRavel(e: Extent, i: nat)
    requires e.Positive()
    ensures Ravel(e, Unravel(e, i)) == i
    ensures i < e.Volume() <==> e.Contains(Unravel(e, i))
  {
    NestedQuotient(i, e.x, e.y);
    var p, q := Unravel(e, i), i / e.x;
    Placement(e.x, p.x, q, i);
    Placement(e.y, p.y, p.z, q);
    assert i == Ravel(e, p);
    Regroup(p.z, e.y, p.y, e.x, p.x);
    Product(e.x, e.y);
    RowBelow(e, p.x, p.y);
    Under(e.x * e.y, e.z, p.z, p.y * e.x + p.x);
    assert e.Volume() == e.z * (e.x * e.y);
  }

  lemma RavelUnravel(e: Extent, p: Point)
    requires e.Positive() && e.Contains(p)
    ensures Unravel(e, Ravel(e, p)) == p
  {
    var i := Ravel(e, p);
    NestedQuotient(i, e.x, e.y);
    Placement(e.x, p.x, p.z * e.y + p.y, i);
    Placement(e.y, p.y, p.z, p.z * e.y + p.y);
  }

  /** Coordinates of thread t when blocks have `perBlock` threads. */
  function ContextAt(grid: Extent, block: Extent, perBlock: nat, t: nat): Context
    requires 0 < perBlock
  {
    Context(Unravel(block.AtLeastOne(), t % perBlock), Unravel(grid.AtLeastOne(), t / perBlock), block.AtLeastOne())
  }

  // ----- The host's numbering -----

  function HostCount(e: Extent): nat { e.AtLeastOne().Volume() }

  function HostThreads(grid: Extent, block: Extent): nat { HostCount(grid) * HostCount(block) }

  /** `computeThreadContexts`. */
  function HostContext(grid: Extent, block: Extent, t: nat): Context {
    VolumePositive(block.AtLeastOne());
    ContextAt(grid, block, HostCount(block), t)
  }

  lemma VolumePositive(e: Extent)
    requires e.Positive()
    ensures 0 < e.Volume()
  {
    Product(e.x, e.y);
    Product(e.x * e.y, e.z);
  }

  predicate InRange(grid: Extent, block: Extent, c: Context) {
    block.AtLeastOne().Contains(c.tid) && grid.AtLeastOne().Contains(c.ctaid) && c.ntid == block.AtLeastOne()
  }

  function ThreadOf(grid: Extent, block: Extent, c: Context): nat {
    Ravel(grid.AtLeastOne(), c.ctaid) * HostCount(block) + Ravel(block.AtLeastOne(), c.tid)
  }

  /** Thread numbers and (block, thread) coordinates correspond one to one. */
  lemma ThreadNumbering(grid: Extent, block: Extent, t: nat)
    requires t < HostThreads(grid, block)
    ensures var c := HostContext(grid, block, t); InRange(grid, block, c) && ThreadOf(grid, block, c) == t
  {
    var g, e := grid.AtLeastOne(), block.AtLeastOne();
    VolumePositive(e);
    var v := e.Volume();
    var b, i := t / v, t % v;
    Placement(v, i, b, t);
    Under(v, g.Volume(), b, i);
    UnravelRavel(e, i);
    UnravelRavel(g, b);
  }

  lemma ThreadCoordinates(grid: Extent, block: Extent, c: Context)
    requires InRange(grid, block, c)
    ensures var t := ThreadOf(grid, block, c); t < HostThreads(grid, block) && HostContext(grid, block, t) == c
  {
    var g, e := grid.AtLeastOne(), block.AtLeastOne();
    VolumePositive(e);
    RavelUnravel(e, c.tid);
    RavelUnravel(g, c.ctaid);
    var v, b, i := e.Volume(), Ravel(g, c.ctaid), Ravel(e, c.tid);
    UnravelRavel(e, i);
    UnravelRavel(g, b);
    Placement(v, i, b, ThreadOf(grid, block, c));
    Under(v, g.Volume(), b, i);
  }

  // ----- The bridge's numbering -----

  /** `runOnHardware` counts blocks and threads with the x extent as it comes. */
  function BridgeCount(e: Extent): nat { Clamped(e.x * Clamped(e.y) * Clamped(e.z)) }

  function BridgeThreads(grid: Extent, block: Extent): nat { BridgeCount(grid) * BridgeCount(block) }

  /** `makeWorker`. */
  function BridgeContext(grid: Extent, block: Extent, t: nat): Context { ContextAt(grid, block, BridgeCount(block), t) }

  /** The two implementations number a launch alike. */
  ghost predicate SameNumbering(grid: Extent, block: Extent) {
    && BridgeCount(grid) == HostCount(grid) && BridgeCount(block) == HostCount(block)
    && forall t :: 0 <= t < HostThreads(grid, block) ==> BridgeContext(grid, block, t) == HostContext(grid, block, t)
  }

  /** The x extent is not zero, or nothing depends on it. */
  predicate Plain(e: Extent) { e.x > 0 || Clamped(e.y) * Clamped(e.z) == 1 }

  lemma CountsAgree(e: Extent)
    ensures BridgeCount(e) == HostCount(e) <==> Plain(e)
    ensures 0 < BridgeCount(e) <= HostCount(e)
  {
    VolumePositive(e.AtLeastOne());
    var y, z := Clamped(e.y), Clamped(e.z);
    if e.x > 0 {
      assert e.AtLeastOne().Volume() == e.x * y * z;
    } else {
      assert e.x * y * z == 0 && 1 * y * z == y * z;
    }
  }

  /** Host and bridge number a launch alike exactly when both extents are plain; the
      number of threads alone tells. */
  lemma SameNumberingIff(grid: Extent, block: Extent)
    ensures SameNumbering(grid, block) <==> Plain(grid) && Plain(block)
    ensures BridgeThreads(grid, block) == HostThreads(grid, block) <==> Plain(grid) && Plain(block)
  {
    hide BridgeCount, HostCount, Plain;
    CountsAgree(grid);
    CountsAgree(block);
    var a, b, x, y := BridgeCount(grid), BridgeCount(block), HostCount(grid), HostCount(block);
    SmallerProduct(a, b, x, y);
  }

  lemma SmallerProduct(a: nat, b: nat, x: nat, y: nat)
    requires 0 < a <= x && 0 < b <= y
    ensures a * b == x * y <==> a == x && b == y
  {
    if a < x {
      Multiples(a, x, b);
      assert x * b <= x * y;
    } else if b < y {
      Multiples(b, y, a);
    }
  }

  /** A zero x extent with two rows: the bridge runs one block where the host lists two. */
  lemma ZeroExtentDiffers()
    ensures BridgeThreads(Extent(0, 2, 1), Extent(1, 1, 1)) == 1 && HostThreads(Extent(0, 2, 1), Extent(1, 1, 1)) == 2
    ensures BridgeThreads(Extent(1, 1, 1), Extent(0, 2, 1)) == 1 && HostThreads(Extent(1, 1, 1), Extent(0, 2, 1)) == 2
    ensures !SameNumbering(Extent(0, 2, 1), Extent(1, 1, 1)) && !SameNumbering(Extent(1, 1, 1), Extent(0, 2, 1))
  {
    SameNumberingIff(Extent(0, 2, 1), Extent(1, 1, 1));
    SameNumberingIff(Extent(1, 1, 1), Extent(0, 2, 1));
  }

  method ComputeThreadContexts(grid: Extent, block: Extent) returns (contexts: seq<Context>)
    ensures |contexts| == HostThreads(grid, block)
    ensures forall t :: 0 <= t < |contexts| ==> contexts[t] == HostContext(grid, block, t)
  {
    hide HostContext, HostThreads;
    var total := HostThreads(grid, block);
    contexts := [];
    for t := 0 to total
      invariant |contexts| == t && forall u :: 0 <= u < t ==> contexts[u] == HostContext(grid, block, u)
    {
      contexts := contexts + [HostContext(grid, block, t)];
    }
  }

  const THREAD_CTX_BASE := 0x0020_0000
  const THREAD_CTX_STRIDE := 64
  const SHARED_WINDOW := 0x0040_0000

  function ContextSlot(t: nat): nat { THREAD_CTX_BASE + t * THREAD_CTX_STRIDE }

  /** Context slots are disjoint, and all below the shared window exactly for up to 32768 threads. */
  lemma ContextSlots(threads: nat)
    ensures forall t, u :: 0 <= t < u ==> ContextSlot(t) + THREAD_CTX_STRIDE <= ContextSlot(u)
    ensures (forall t :: 0 <= t < threads ==> ContextSlot(t) + THREAD_CTX_STRIDE <= SHARED_WINDOW) <==> threads <= 32768
  {
    if threads > 32768 {
      assert ContextSlot(32768) == SHARED_WINDOW;
    }
  }

  // ----- Devices -----

  /** Warps of device d: an even share, one more for the first few. */
  function Share(total: nat, devices: nat, d: nat): nat
    requires 0 < devices
  {
    total / devices + if d < total % devices then 1 else 0
  }

  function OffsetOf(total: nat, devices: nat, d: nat): nat
    requires 0 < devices
  {
    if d == 0 then 0 else OffsetOf(total, devices, d - 1) + Share(total, devices, d - 1)
  }

  lemma {:induction false} OffsetIs(total: nat, devices: nat, d: nat)
    requires 0 < devices
    ensures OffsetOf(total, devices, d) == d * (total / devices) + if d < total % devices then d else total % devices
  {
    if d > 0 {
      OffsetIs(total, devices, d - 1);
      assert d * (total / devices) == (d - 1) * (total / devices) + total / devices;
    }
  }

  /** The shares add up to the launch. */
  lemma SharesCover(total: nat, devices: nat)
    requires 0 < devices
    ensures OffsetOf(total, devices, devices) == total
  {
    OffsetIs(total, devices, devices);
    Placement(devices, total % devices, total / devices, total);
  }

  lemma {:induction false} OffsetsRise(total: nat, devices: nat, d: nat, e: nat)
    requires 0 < devices && d <= e
    ensures OffsetOf(total, devices, d) <= OffsetOf(total, devices, e)
    decreases e - d
  {
    if d < e {
      OffsetsRise(total, devices, d, e - 1);
    }
  }

  predicate OnDevice(total: nat, devices: nat, d: nat, w: nat)
    requires 0 < devices
  {
    OffsetOf(total, devices, d) <= w < OffsetOf(total, devices, d) + Share(total, devices, d)
  }

  /** No warp is on two devices. */
  lemma OneDevice(total: nat, devices: nat, d: nat, e: nat, w: nat)
    requires 0 < devices && d < e && OnDevice(total, devices, d, w)
    ensures !OnDevice(total, devices, e, w)
  {
    OffsetsRise(total, devices, d + 1, e);
  }

  lemma {:induction false} SomeDevice(total: nat, devices: nat, w: nat, d: nat)
    requires 0 < devices && w < OffsetOf(total, devices, d)
    ensures exists e :: 0 <= e < d && OnDevice(total, devices, e, w)
  {
    if w < OffsetOf(total, devices, d - 1) {
      SomeDevice(total, devices, w, d - 1);
    } else {
      assert OnDevice(total, devices, d - 1, w);
    }
  }

  /** The launch one device sees: its share, numbered from its offset. */
  function DeviceLaunch(cfg: Config, devices: nat, d: nat): Config
    requires 0 < devices
  {
    cfg.(total := Share(cfg.total, devices, d), offset := OffsetOf(cfg.total, devices, d))
  }

  /** Slot j of unit c on device d takes the warp with global id w. Devices given
      more than they can hold refuse their launch. */
  predicate Carries(cfg: Config, devices: nat, d: nat, c: nat, j: nat, w: nat)
    requires 0 < devices
  {
    && d < devices && c < cfg.n && j < cfg.m
    && var dev := DeviceLaunch(cfg, devices, d);
       !dev.Faulty() && dev.Resident(c, j) && dev.WarpId(dev.Local(c, j)) == w
  }

  lemma CarriedWarp(cfg: Config, devices: nat, d: nat, c: nat, j: nat, w: nat)
    requires cfg.Valid() && 0 < devices && Carries(cfg, devices, d, c, j, w)
    ensures OnDevice(cfg.total, devices, d, w) && cfg.Local(c, j) == w - OffsetOf(cfg.total, devices, d)
  {
    hide OffsetOf, Share;
    ShareFits(cfg.total, devices, d);
    var i := OffsetOf(cfg.total, devices, d) + cfg.Local(c, j);
    assert i < cfg.total < WARP_IDS;
  }

  /** No two slots of the whole system take the same warp. */
  lemma OneSlot(cfg: Config, devices: nat, d: nat, c: nat, j: nat, d': nat, c': nat, j': nat, w: nat)
    requires cfg.Valid() && 0 < devices && Carries(cfg, devices, d, c, j, w) && Carries(cfg, devices, d', c', j', w)
    ensures d == d' && c == c' && j == j'
  {
    hide OffsetOf, Share, OnDevice, Carries;
    CarriedWarp(cfg, devices, d, c, j, w);
    CarriedWarp(cfg, devices, d', c', j', w);
    assert c < cfg.n && c' < cfg.n by { InUnit(cfg, devices, d, c, j, w); InUnit(cfg, devices, d', c', j', w); }
    if d < d' {
      OneDevice(cfg.total, devices, d, d', w);
    } else if d' < d {
      OneDevice(cfg.total, devices, d', d, w);
    } else {
      Placement(cfg.n, c, j, cfg.Local(c, j));
      Placement(cfg.n, c', j', cfg.Local(c, j));
    }
  }

  lemma InUnit(cfg: Config, devices: nat, d: nat, c: nat, j: nat, w: nat)
    requires 0 < devices && Carries(cfg, devices, d, c, j, w)
    ensures c < cfg.n
  {
  }

  lemma WarpHasSlot(cfg: Config, devices: nat, d: nat, w: nat) returns (c: nat, j: nat)
    requires cfg.Valid() && d < devices && OnDevice(cfg.total, devices, d, w) && !DeviceLaunch(cfg, devices, d).Faulty()
    ensures Carries(cfg, devices, d, c, j, w)
  {
    hide OffsetOf, Share, Config.Faulty, Config.Local;
    var dev := DeviceLaunch(cfg, devices, d);
    ShareFits(cfg.total, devices, d);
    c, j := SlotFor(dev, w - dev.offset);
  }

  lemma SlotFor(dev: Config, i: nat) returns (c: nat, j: nat)
    requires dev.Valid() && !dev.Faulty() && i < dev.total
    ensures c < dev.n && j < dev.m && dev.Local(c, j) == i && dev.Resident(c, j)
  {
    hide Config.Faulty, Config.Local;
    Safety.WarpSlotOf(dev, i);
    c, j := i % dev.n, i / dev.n;
  }

  ghost predicate HasSlot(cfg: Config, devices: nat, w: nat)
    requires 0 < devices
  {
    exists d, c, j :: Carries(cfg, devices, d, c, j, w)
  }

  /** Every warp of a launch finds a slot exactly when no device is given more than it can hold. */
  lemma PlacedIff(cfg: Config, devices: nat)
    requires cfg.Valid() && 0 < devices
    ensures (forall w :: 0 <= w < cfg.total ==> HasSlot(cfg, devices, w))
            <==> forall d :: 0 <= d < devices ==> !DeviceLaunch(cfg, devices, d).Faulty()
  {
    hide OffsetOf, Share, OnDevice, Carries;
    if forall d :: 0 <= d < devices ==> !DeviceLaunch(cfg, devices, d).Faulty() {
      forall w | 0 <= w < cfg.total ensures HasSlot(cfg, devices, w) {
        SharesCover(cfg.total, devices);
        SomeDevice(cfg.total, devices, w, devices);
        var d :| 0 <= d < devices && OnDevice(cfg.total, devices, d, w);
        var c, j := WarpHasSlot(cfg, devices, d, w);
      }
    } else {
      var d :| 0 <= d < devices && DeviceLaunch(cfg, devices, d).Faulty();
      var w := OffsetOf(cfg.total, devices, d);
      ShareFits(cfg.total, devices, d);
      assert OnDevice(cfg.total, devices, d, w) by { FirstOf(cfg, devices, d); }
      forall d', c, j ensures !Carries(cfg, devices, d', c, j, w) {
        NotElsewhere(cfg, devices, d, d', c, j, w);
      }
      assert !HasSlot(cfg, devices, w);
      assert w < cfg.total by { FirstOf(cfg, devices, d); }
    }
  }

  lemma FirstOf(cfg: Config, devices: nat, d: nat)
    requires cfg.Valid() && d < devices && DeviceLaunch(cfg, devices, d).Faulty()
    ensures var w := OffsetOf(cfg.total, devices, d); w < cfg.total && OnDevice(cfg.total, devices, d, w)
  {
    hide OffsetOf, Share;
    ShareFits(cfg.total, devices, d);
    assert cfg.n * cfg.m >= 0;
  }

  lemma NotElsewhere(cfg: Config, devices: nat, d: nat, d': nat, c: nat, j: nat, w: nat)
    requires cfg.Valid() && d < devices && DeviceLaunch(cfg, devices, d).Faulty() && OnDevice(cfg.total, devices, d, w)
    ensures !Carries(cfg, devices, d', c, j, w)
  {
    hide OffsetOf, Share, OnDevice;
    if Carries(cfg, devices, d', c, j, w) {
      CarriedWarp(cfg, devices, d', c, j, w);
      if d < d' {
        OneDevice(cfg.total, devices, d, d', w);
      } else if d' < d {
        OneDevice(cfg.total, devices, d', d, w);
      }
    }
  }

  /** Offset and share of a device stay within the launch. */
  lemma ShareFits(total: nat, devices: nat, d: nat)
    requires 0 < devices && d < devices
    ensures OffsetOf(total, devices, d) + Share(total, devices, d) <= total
  {
    OffsetsRise(total, devices, 0, d);
    OffsetsRise(total, devices, d + 1, devices);
    SharesCover(total, devices);
  }

  /** `launchKernel`: what each device is told; devices without warps are not started. */
  method LaunchKernel(total: nat, devices: nat) returns (told: map<nat, (nat, nat)>)
    requires 0 < devices
    ensures forall d: nat :: d in told <==> d < devices && Share(total, devices, d) > 0
    ensures forall d :: d in told ==> told[d] == (OffsetOf(total, devices, d), Share(total, devices, d))
  {
    hide Share, OffsetOf;
    told := map[];
    var even, rest, offset := total / devices, total % devices, 0;
    assert OffsetOf(total, devices, 0) == 0 by { OffsetIs(total, devices, 0); }
    for d := 0 to devices
      invariant offset == OffsetOf(total, devices, d)
      invariant forall e: nat :: e in told <==> e < d && Share(total, devices, e) > 0
      invariant forall e :: e in told ==> told[e] == (OffsetOf(total, devices, e), Share(total, devices, e))
    {
      var n := even + if d < rest then 1 else 0;
      NextOffset(total, devices, d);
      if n > 0 {
        told := told[d := (offset, n)];
        offset := offset + n;
      }
    }
  }

  lemma NextOffset(total: nat, devices: nat, d: nat)
    requires 0 < devices
    ensures OffsetOf(total, devices, d + 1) == OffsetOf(total, devices, d) + Share(total, devices, d)
    ensures Share(total, devices, d) == total / devices + if d < total % devices then 1 else 0
  {
  }
}

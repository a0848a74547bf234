// The slot array of one compute unit, as cu_dispatch_unit.h updates it in
// place, and the scheduler process that owns it (gpgpu_top.h:213-278).

module SlotUnits {
  import opened Slots
  import opened Protocol

  method Assign(cfg: Config, slots: array<WarpSlot>, j: nat, c: nat)
    requires j < slots.Length
    modifies slots
    ensures slots[..] == old(slots[..])[j := Slots.AssignSlot(cfg, c, j, old(slots[j]))]
  {
    var local := cfg.Local(c, j);
    if local < cfg.total {
      slots[j] := slots[j].(warpId := cfg.WarpId(local), resumePc := 0, barrierId := 0, state := READY, first := true);
    } else {
      slots[j] := slots[j].(state := EMPTY);
    }
  }

  method LaunchAll(cfg: Config, slots: array<WarpSlot>, c: nat)
    modifies slots
    ensures slots[..] == Slots.LaunchSlots(cfg, c, old(slots[..]))
  {
    ghost var before := slots[..];
    for j := 0 to slots.Length
      invariant forall k :: 0 <= k < slots.Length ==>
        slots[k] == if k < j then Slots.AssignSlot(cfg, c, k, before[k]) else before[k]
    {
      hide Slots.AssignSlot;
      Assign(cfg, slots, j, c);
      assert forall k :: 0 <= k < slots.Length ==> slots[k] == slots[..][k];
    }
    assert slots[..] == Slots.LaunchSlots(cfg, c, before);
  }

  /** The lowest READY slot, or `slots.Length`, the invalid slot. */
  method FindReady(slots: array<WarpSlot>) returns (j: nat)
    ensures j == NextReady(slots[..])
  {
    for k := 0 to slots.Length
      invariant forall i :: 0 <= i < k ==> !slots[i].state.READY?
    {
      if slots[k].state.READY? {
        return k;
      }
    }
    return slots.Length;
  }

  method Package(slots: array<WarpSlot>, j: nat) returns (d: Dispatch)
    requires j < slots.Length
    modifies slots
    ensures d == Slots.BuildDispatch(old(slots[..]), j)
    ensures slots[..] == Dispatched(old(slots[..]), j)
  {
    d := Dispatch(j, slots[j].warpId, slots[j].resumePc, slots[j].first);
    slots[j] := slots[j].(first := false);
  }

  method Record(slots: array<WarpSlot>, st: Status)
    requires st.slot < slots.Length
    modifies slots
    ensures slots[..] == Slots.RecordResult(old(slots[..]), st)
  {
    if st.stop.Complete? {
      slots[st.slot] := slots[st.slot].(state := DONE);
    } else {
      slots[st.slot] := slots[st.slot].(state := STALLED, barrierId := st.stop.barrier, resumePc := st.resumePc);
    }
  }

  method ReleaseAll(slots: array<WarpSlot>)
    modifies slots
    ensures slots[..] == ReleaseSlots(old(slots[..]))
  {
    ghost var before := slots[..];
    for j := 0 to slots.Length
      invariant forall k :: 0 <= k < slots.Length ==> slots[k] == if k < j then Released(before[k]) else before[k]
    {
      if slots[j].state.STALLED? {
        slots[j] := slots[j].(state := READY);
      }
    }
    assert slots[..] == ReleaseSlots(before);
  }

  method AllDone(slots: array<WarpSlot>) returns (done: bool)
    ensures done <==> AllSlotsDone(slots[..])
  {
    for j := 0 to slots.Length
      invariant forall k :: 0 <= k < j ==> !slots[k].state.READY? && !slots[k].state.STALLED?
    {
      if slots[j].state.READY? || slots[j].state.STALLED? {
        assert slots[..][j] == slots[j];
        return false;
      }
    }
    return true;
  }

  /** `schedulerCore` of one unit: its local variables and the streams at its ports. */
  class SchedulerCore {
    const cfg: Config
    const cuId: nat
    const slots: array<WarpSlot>
    var busyCuScheduler: bool
    var busyCu: bool
    var dispatchOut: seq<Dispatch>
    var statusIn: seq<Status>
    var eventsOut: seq<Code>
    var signalIn: seq<Signal>
    var loadedIn: nat

    constructor (cfg: Config, cuId: nat)
      ensures this.cfg == cfg && this.cuId == cuId && fresh(slots) && slots.Length == cfg.m
      ensures !busyCuScheduler && !busyCu && dispatchOut == [] && statusIn == [] && eventsOut == [] && signalIn == [] && loadedIn == 0
      ensures forall j :: 0 <= j < cfg.m ==> slots[j].state.EMPTY?
    {
      this.cfg, this.cuId := cfg, cuId;
      slots := new WarpSlot[cfg.m](_ => WarpSlot(0, 0, 0, EMPTY, false));
      busyCuScheduler, busyCu, dispatchOut, statusIn, eventsOut, signalIn, loadedIn := false, false, [], [], [], [], 0;
    }

    /** The scheduler's share of unit `u` is what this object holds. */
    ghost predicate Shows(u: Unit)
      reads this, slots
    {
      && u.slots == slots[..] && u.running == busyCuScheduler && u.busy == busyCu
      && u.dispatches == dispatchOut && u.statuses == statusIn && u.events == eventsOut
      && u.signals == signalIn && u.tokens == loadedIn
    }

    method Dispatch(ghost u: Unit)
      requires Shows(u)
      modifies this`dispatchOut, this`busyCu, slots
      ensures Shows(DispatchStep(u))
    {
      hide NextReady;
      if !busyCu {
        var j := FindReady(slots);
        if j != slots.Length {
          var d := Package(slots, j);
          dispatchOut := dispatchOut + [d];
          busyCu := true;
        }
      }
    }

    method Status(ghost u: Unit)
      requires Shows(u) && (statusIn != [] ==> statusIn[0].slot < slots.Length)
      modifies this`statusIn, this`eventsOut, this`busyCu, slots
      ensures Shows(StatusStep(u))
    {
      if statusIn != [] {
        var st := statusIn[0];
        statusIn := statusIn[1..];
        Record(slots, st);
        eventsOut := eventsOut + [CodeOf(st.stop)];
        busyCu := false;
      }
    }

    method Signal(ghost u: Unit)
      requires Shows(u)
      modifies this`signalIn, this`busyCuScheduler, slots
      ensures Shows(SignalStep(u))
    {
      if signalIn != [] {
        var sig := signalIn[0];
        signalIn := signalIn[1..];
        if sig.release {
          ReleaseAll(slots);
        }
        if sig.kernelDone {
          busyCuScheduler := false;
        }
      }
    }

    /** One pass of the endless loop. Reports name slots that exist. */
    method Pass(ghost u: Unit)
      requires Shows(u) && (statusIn != [] ==> statusIn[0].slot < slots.Length)
      modifies this, slots
      ensures Shows(SchedulerPass(cfg, cuId, u))
    {
      hide DispatchStep, StatusStep, SignalStep;
      if !busyCuScheduler {
        if cfg.total > cfg.n * cfg.m || loadedIn == 0 {
          return;
        }
        loadedIn := loadedIn - 1;
        LaunchAll(cfg, slots, cuId);
        busyCu := false;
        busyCuScheduler := true;
      } else {
        Dispatch(u);
        Status(DispatchStep(u));
        Signal(StatusStep(DispatchStep(u)));
      }
    }
  }
}

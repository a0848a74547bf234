// Warp slots of a compute unit (hls/src/scheduler/cu_dispatch_unit.h) and the
// launch they are filled from.

module Slots {
  import opened Isa
  import opened Warp

  const WARP_IDS := 0x1_0000_0000

  /** What a launch fixes: the hardware's size, the host's registers and buffers.
      `exec` is what a dispatched warp does next, from the fetched words, the
      warp's id and its pc. */
  datatype Config = Config(
    n: nat, m: nat, total: nat, offset: nat, seedDepth: nat,
    program: seq<Word>,
    initial: (nat, nat) -> Word,
    exec: (seq<Word>, nat, nat) -> (Stop, nat))
  {
    // The loader counts units and slots in 8 bits; warp numbers have 32.
    predicate Valid() {
      0 < n < 256 && 0 < m < 256 && total < WARP_IDS && 0 < seedDepth
    }

    predicate Faulty() { total > n * m }

    function Local(c: nat, j: nat): nat { c + j * n }

    predicate Resident(c: nat, j: nat) { Local(c, j) < total }

    function WarpId(w: nat): nat { (offset + w) % WARP_IDS }
  }

  datatype SlotState = EMPTY | READY | STALLED | DONE

  datatype WarpSlot = WarpSlot(warpId: nat, resumePc: nat, barrierId: Word, state: SlotState, first: bool)

  datatype Dispatch = Dispatch(slot: nat, warpId: nat, resumePc: nat, first: bool)

  /** A warp's report: why it stopped and where it resumes. */
  datatype Status = Status(slot: nat, stop: Stop, resumePc: nat)

  function AssignSlot(cfg: Config, c: nat, j: nat, before: WarpSlot): WarpSlot {
    if cfg.Resident(c, j) then WarpSlot(cfg.WarpId(cfg.Local(c, j)), 0, 0, READY, true)
    else before.(state := EMPTY)
  }

  function LaunchSlots(cfg: Config, c: nat, slots: seq<WarpSlot>): seq<WarpSlot> {
    seq(|slots|, j requires 0 <= j < |slots| => AssignSlot(cfg, c, j, slots[j]))
  }

  /** The lowest READY slot, or the number of slots. */
  function NextReady(slots: seq<WarpSlot>): (j: nat)
    ensures j <= |slots|
    ensures j < |slots| ==> slots[j].state.READY?
    ensures forall k :: 0 <= k < j ==> !slots[k].state.READY?
  {
    if slots == [] || slots[0].state.READY? then 0 else 1 + NextReady(slots[1..])
  }

  function BuildDispatch(slots: seq<WarpSlot>, j: nat): Dispatch
    requires j < |slots|
  {
    Dispatch(j, slots[j].warpId, slots[j].resumePc, slots[j].first)
  }

  function Dispatched(slots: seq<WarpSlot>, j: nat): seq<WarpSlot>
    requires j < |slots|
  {
    slots[j := slots[j].(first := false)]
  }

  function Recorded(slot: WarpSlot, st: Status): WarpSlot {
    if st.stop.Complete? then slot.(state := DONE)
    else slot.(state := STALLED, barrierId := st.stop.barrier, resumePc := st.resumePc)
  }

  // A report for a slot that does not exist is never sent.
  function RecordResult(slots: seq<WarpSlot>, st: Status): seq<WarpSlot> {
    if st.slot < |slots| then slots[st.slot := Recorded(slots[st.slot], st)] else slots
  }

  function Released(slot: WarpSlot): WarpSlot {
    if slot.state.STALLED? then slot.(state := READY) else slot
  }

  function ReleaseSlots(slots: seq<WarpSlot>): seq<WarpSlot> {
    seq(|slots|, j requires 0 <= j < |slots| => Released(slots[j]))
  }

  predicate AllSlotsDone(slots: seq<WarpSlot>) {
    forall j :: 0 <= j < |slots| ==> !slots[j].state.READY? && !slots[j].state.STALLED?
  }
}

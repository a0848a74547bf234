// The two controllers as the objects the sources declare.

module SimtUnits {
  import opened Isa
  import opened Simt

  /** `DivergenceStack`: one warp, a fixed buffer of masks and a stack pointer. */
  class DivergenceStack {
    var activeMask: Mask
    var sp: nat
    var overflow: bool
    var events: nat
    var wasted: nat
    const notTakenStack: array<Mask>

    ghost predicate Valid()
      reads this, notTakenStack
    {
      notTakenStack.Length == MAX_DIVERGENCE_DEPTH && sp <= MAX_DIVERGENCE_DEPTH
    }

    ghost function Value(): Bounded
      requires Valid()
      reads this, notTakenStack
    {
      Bounded(State(activeMask, notTakenStack[..sp], events, wasted), overflow)
    }

    constructor ()
      ensures Valid() && fresh(notTakenStack)
      ensures Value() == Bounded(State({}, [], 0, 0), false)
    {
      activeMask, sp, overflow, events, wasted := {}, 0, false, 0, 0;
      notTakenStack := new Mask[MAX_DIVERGENCE_DEPTH](_ => {});
    }

    method InitializeWarp(mask: Mask)
      requires Valid()
      modifies this
      ensures Valid() && Value() == Bounded(State(mask, [], 0, 0), false)
    {
      activeMask, sp, overflow, events, wasted := mask, 0, false, 0, 0;
    }

    method HandleBranch(conditions: array<bool>)
      requires Valid() && conditions.Length == THREADS_PER_WARP
      modifies this, notTakenStack
      ensures Valid() && Value() == BoundedBranch(old(Value()), conditions[..])
    {
      var taken, notTaken := SplitLanes(activeMask, conditions);
      if taken != {} && notTaken != {} {
        PushDivergence(notTaken);
        activeMask := taken;
        events := events + 1;
        wasted := wasted + |notTaken|;
      } else if taken == {} && notTaken != {} {
        PushDivergence(notTaken);
        activeMask := {};
      } else {
        activeMask := if taken != {} then taken else notTaken;
      }
    }

    method PushDivergence(notTaken: Mask)
      requires Valid()
      modifies this`sp, this`overflow, notTakenStack
      ensures Valid()
      ensures if old(sp) == MAX_DIVERGENCE_DEPTH
              then overflow && sp == old(sp) && notTakenStack[..sp] == old(notTakenStack[..sp])
              else overflow == old(overflow) && notTakenStack[..sp] == old(notTakenStack[..sp]) + [notTaken]
    {
      if sp >= MAX_DIVERGENCE_DEPTH {
        overflow := true;
        return;
      }
      notTakenStack[sp] := notTaken;
      sp := sp + 1;
    }

    method HandleJoin()
      requires Valid()
      modifies this
      ensures Valid() && Value() == BoundedJoin(old(Value()))
    {
      if sp == 0 {
        return;
      }
      sp := sp - 1;
      activeMask := activeMask + notTakenStack[sp];
      assert notTakenStack[..sp] == old(notTakenStack[..sp])[..sp];
    }
  }

  /** The lane loop of `handleBranch`. */
  method SplitLanes(mask: Mask, conditions: array<bool>) returns (taken: Mask, notTaken: Mask)
    requires conditions.Length == THREADS_PER_WARP
    ensures taken == Taken(mask, conditions[..]) && notTaken == NotTaken(mask, conditions[..])
  {
    taken, notTaken := {}, {};
    for t := 0 to THREADS_PER_WARP
      invariant taken == set l <- mask | l < t && conditions[l]
      invariant notTaken == set l <- mask | l < t && !conditions[l]
    {
      if t in mask {
        if conditions[t] {
          taken := taken + {t};
        } else {
          notTaken := notTaken + {t};
        }
      }
    }
  }

  /** `SIMTController`: masks and unbounded stacks of every warp seen so far. */
  class SimtController {
    var activeMasks: seq<Mask>
    var stacks: seq<seq<Mask>>
    var events: nat
    var wasted: nat

    ghost predicate Valid()
      reads this
    {
      |activeMasks| == |stacks|
    }

    // A warp not seen yet has an empty mask and an empty stack.
    ghost function Value(warp: nat): State
      requires Valid()
      reads this
    {
      if warp < |stacks| then State(activeMasks[warp], stacks[warp], events, wasted)
      else State({}, [], events, wasted)
    }

    constructor ()
      ensures Valid() && forall w: nat :: Value(w) == State({}, [], 0, 0)
    {
      activeMasks, stacks, events, wasted := [], [], 0, 0;
    }

    method EnsureWarpExists(warp: nat)
      requires Valid()
      modifies this`activeMasks, this`stacks
      ensures Valid() && warp < |stacks|
      ensures forall w: nat :: Value(w) == old(Value(w))
    {
      if warp >= |stacks| {
        var more := warp + 1 - |stacks|;
        activeMasks := activeMasks + seq(more, _ => {});
        stacks := stacks + seq(more, _ => []);
      }
    }

    method GetActiveMask(warp: nat) returns (mask: Mask)
      requires Valid()
      ensures mask == Value(warp).mask
    {
      mask := if warp >= |activeMasks| then {} else activeMasks[warp];
    }

    /** Resets the mask and leaves the stack as it is. */
    method InitializeWarp(warp: nat, threads: nat)
      requires Valid()
      modifies this`activeMasks, this`stacks
      ensures Valid()
      ensures Value(warp) == old(Value(warp)).(mask := AllLanes(threads))
      ensures forall w: nat :: w != warp ==> Value(w) == old(Value(w))
    {
      EnsureWarpExists(warp);
      activeMasks := activeMasks[warp := AllLanes(threads)];
    }

    method HandleBranch(warp: nat, conditions: array<bool>)
      requires Valid() && conditions.Length == THREADS_PER_WARP
      modifies this
      ensures Valid() && Value(warp) == Branch(old(Value(warp)), conditions[..])
      ensures forall w: nat :: w != warp ==> Value(w).mask == old(Value(w)).mask && Value(w).stack == old(Value(w)).stack
    {
      EnsureWarpExists(warp);
      var taken, notTaken := SplitLanes(activeMasks[warp], conditions);
      if taken != {} && notTaken != {} {
        stacks := stacks[warp := stacks[warp] + [notTaken]];
        activeMasks := activeMasks[warp := taken];
        events := events + 1;
        wasted := wasted + |notTaken|;
      } else if taken == {} && notTaken != {} {
        stacks := stacks[warp := stacks[warp] + [notTaken]];
        activeMasks := activeMasks[warp := {}];
      } else {
        activeMasks := activeMasks[warp := if taken != {} then taken else notTaken];
      }
    }

    method HandleJoin(warp: nat)
      requires Valid()
      modifies this
      ensures Valid() && Value(warp) == Join(old(Value(warp)))
      ensures forall w: nat :: w != warp ==> Value(w) == old(Value(w))
    {
      EnsureWarpExists(warp);
      var stack := stacks[warp];
      if stack == [] {
        return;
      }
      stacks := stacks[warp := stack[..|stack| - 1]];
      activeMasks := activeMasks[warp := activeMasks[warp] + stack[|stack| - 1]];
    }
  }
}

// Divergence and reconvergence of one warp: the bounded HLS stack
// (hls/src/simt_controller/divergence_stack.h) and the golden controller
// (models/systemc/src/simt_controller/simt_controller.cpp).

/** Lane masks are sets of lane numbers. */
module Simt {
  import opened Isa

  type Mask = set<nat>

  const MAX_DIVERGENCE_DEPTH: nat := 8

  /** Lanes 0..n-1. */
  function AllLanes(n: nat): (m: Mask)
    ensures forall t: nat :: t in m <==> t < n
  {
    if n == 0 then {} else AllLanes(n - 1) + {n - 1}
  }

  // ----- What one branch and one join do -----

  function Taken(mask: Mask, cond: seq<bool>): Mask {
    set t <- mask | t < |cond| && cond[t]
  }

  function NotTaken(mask: Mask, cond: seq<bool>): Mask {
    set t <- mask | t < |cond| && !cond[t]
  }

  /** Mask and stack of a controller, with its two statistics. */
  datatype State = State(mask: Mask, stack: seq<Mask>, events: nat, wasted: nat)

  /** `handleBranch` on a stack of unbounded depth: push when some active lane jumps. */
  function Branch(s: State, cond: seq<bool>): State {
    var taken, notTaken := Taken(s.mask, cond), NotTaken(s.mask, cond);
    if taken != {} && notTaken != {} then
      State(taken, s.stack + [notTaken], s.events + 1, s.wasted + |notTaken|)
    else if notTaken != {} then s.(mask := {}, stack := s.stack + [notTaken])
    else s.(mask := taken)
  }

  /** `handleJoin`. */
  function Join(s: State): State {
    if s.stack == [] then s
    else s.(mask := s.mask + s.stack[|s.stack| - 1], stack := s.stack[..|s.stack| - 1])
  }

  /** The HLS controller: the same state, a bounded stack and a sticky overflow flag. */
  datatype Bounded = Bounded(s: State, overflow: bool)

  // A branch that pushes on a full stack drops the jumping lanes and raises `overflow`.
  function BoundedBranch(b: Bounded, cond: seq<bool>): Bounded {
    var next := Branch(b.s, cond);
    if |next.stack| > MAX_DIVERGENCE_DEPTH then Bounded(next.(stack := b.s.stack), true)
    else b.(s := next)
  }

  function BoundedJoin(b: Bounded): Bounded {
    b.(s := Join(b.s))
  }

  // ----- Conservation of lanes -----

  /** The active lanes and the stack entries are disjoint, the entries are not
      empty, and together they are exactly `all`. */
  ghost predicate Partition(mask: Mask, stack: seq<Mask>, all: Mask)
    decreases |stack|
  {
    if stack == [] then mask == all
    else
      var top := stack[|stack| - 1];
      top != {} && top !! mask && Partition(mask + top, stack[..|stack| - 1], all)
  }

  lemma BranchConserves(s: State, cond: seq<bool>, all: Mask)
    requires Partition(s.mask, s.stack, all)
    requires forall t :: t in s.mask ==> t < |cond|
    ensures Partition(Branch(s, cond).mask, Branch(s, cond).stack, all)
  {
    var taken, notTaken := Taken(s.mask, cond), NotTaken(s.mask, cond);
    assert taken + notTaken == s.mask;
    var r := Branch(s, cond);
    if notTaken != {} {
      assert r.stack[..|r.stack| - 1] == s.stack;
      assert r.mask == taken;
    } else {
      assert taken == s.mask;
    }
  }

  lemma JoinConserves(s: State, all: Mask)
    requires Partition(s.mask, s.stack, all)
    ensures Partition(Join(s).mask, Join(s).stack, all)
  {
  }

  /** Every lane is running exactly when the stack is empty: a join restores the
      full mask precisely when it pops the last entry. */
  lemma {:induction false} FullIffEmpty(mask: Mask, stack: seq<Mask>, all: Mask)
    requires Partition(mask, stack, all)
    ensures mask <= all
    ensures mask == all <==> stack == []
    decreases |stack|
  {
    if stack != [] {
      var top := stack[|stack| - 1];
      FullIffEmpty(mask + top, stack[..|stack| - 1], all);
      var t :| t in top;
      assert t in mask + top && t !in mask;
    }
  }

  // ----- Parity of the two controllers -----

  /** The golden stack is what earlier dispatches left behind, `stale`, below the
      entries of this dispatch; masks and statistics of this dispatch agree. */
  ghost predicate Parity(golden: State, b: Bounded, stale: seq<Mask>, events0: nat, wasted0: nat, all: Mask) {
    && !b.overflow
    && |b.s.stack| <= MAX_DIVERGENCE_DEPTH
    && golden.mask == b.s.mask
    && golden.stack == stale + b.s.stack
    && golden.events == events0 + b.s.events
    && golden.wasted == wasted0 + b.s.wasted
    && Partition(b.s.mask, b.s.stack, all)
  }

  ghost predicate Within(stale: seq<Mask>, all: Mask) {
    forall i :: 0 <= i < |stale| ==> stale[i] <= all
  }

  // Whether this branch pushes an entry.
  predicate Pushes(mask: Mask, cond: seq<bool>) {
    NotTaken(mask, cond) != {}
  }

  lemma BranchInStep(g: State, b: Bounded, stale: seq<Mask>, e0: nat, w0: nat, all: Mask, cond: seq<bool>)
    requires Parity(g, b, stale, e0, w0, all)
    requires forall t :: t in g.mask ==> t < |cond|
    requires !(Pushes(g.mask, cond) && |b.s.stack| == MAX_DIVERGENCE_DEPTH)
    ensures Parity(Branch(g, cond), BoundedBranch(b, cond), stale, e0, w0, all)
  {
    BranchConserves(b.s, cond, all);
    if Pushes(g.mask, cond) {
      assert (stale + b.s.stack) + [NotTaken(g.mask, cond)] == stale + (b.s.stack + [NotTaken(g.mask, cond)]);
    }
  }

  lemma BranchDepth(b: Bounded, cond: seq<bool>)
    requires !(Pushes(b.s.mask, cond) && |b.s.stack| >= MAX_DIVERGENCE_DEPTH) && |b.s.stack| <= MAX_DIVERGENCE_DEPTH
    ensures |BoundedBranch(b, cond).s.stack| == |b.s.stack| + (if Pushes(b.s.mask, cond) then 1 else 0)
  {
  }

  /** A branch keeps the two controllers in step exactly when it does not push on a full stack. */
  lemma BranchParity(g: State, b: Bounded, stale: seq<Mask>, e0: nat, w0: nat, all: Mask, cond: seq<bool>)
    requires Parity(g, b, stale, e0, w0, all)
    requires forall t :: t in g.mask ==> t < |cond|
    ensures Parity(Branch(g, cond), BoundedBranch(b, cond), stale, e0, w0, all)
            <==> !(Pushes(g.mask, cond) && |b.s.stack| == MAX_DIVERGENCE_DEPTH)
  {
    if Pushes(g.mask, cond) && |b.s.stack| == MAX_DIVERGENCE_DEPTH {
      assert BoundedBranch(b, cond).overflow;
    } else {
      BranchInStep(g, b, stale, e0, w0, all, cond);
    }
  }

  /** A join keeps the two in step although the golden stack may hold stale
      entries: popping one of those adds lanes that are already running. What
      remains stale is a prefix of what was. */
  lemma JoinParity(g: State, b: Bounded, stale: seq<Mask>, e0: nat, w0: nat, all: Mask)
    returns (stale': seq<Mask>)
    requires Parity(g, b, stale, e0, w0, all) && Within(stale, all)
    ensures stale' <= stale && Within(stale', all)
    ensures Parity(Join(g), BoundedJoin(b), stale', e0, w0, all)
  {
    if b.s.stack == [] {
      if stale == [] {
        stale' := stale;
      } else {
        stale' := stale[..|stale| - 1];
        assert g.stack == stale;
        assert Join(g).mask == all + stale[|stale| - 1] == all;
      }
    } else {
      stale' := stale;
      JoinConserves(b.s, all);
      assert (stale + b.s.stack)[..|stale + b.s.stack| - 1] == stale + b.s.stack[..|b.s.stack| - 1];
    }
  }

  /** Entries a dispatch leaves on the golden stack are again within `all`, so the
      next dispatch may treat the whole stack as stale. */
  lemma {:induction false} EntriesWithin(mask: Mask, stack: seq<Mask>, all: Mask)
    requires Partition(mask, stack, all)
    ensures Within(stack, all)
    decreases |stack|
  {
    if stack != [] {
      var top := stack[|stack| - 1];
      EntriesWithin(mask + top, stack[..|stack| - 1], all);
      FullIffEmpty(mask + top, stack[..|stack| - 1], all);
      forall i | 0 <= i < |stack| ensures stack[i] <= all {
        if i < |stack| - 1 {
          assert stack[i] == stack[..|stack| - 1][i];
        }
      }
    }
  }
}

// The compiler's machine on the golden memory hierarchy, which `executeRV32` loads
// from and stores to (models/systemc/src/compute_unit/compute_unit.cpp:368-394).

module Hosted {
  import opened Integers
  import opened Rv32
  import opened Ptx
  import opened Emitter
  import opened Compiled
  import opened HostMemory
  import opened Isa
  import opened Division
  import Warp

  /** The number a 64-bit address stands for. */
  function Number(x: bv64): nat
    decreases x
  {
    if x == 0 then 0 else 1 + Number(x - 1)
  }

  /** A load that the hierarchy refuses leaves 0. */
  function LoadedWord(h: Hierarchy, x: nat, block: nat): Word {
    var answer := HostMemory.Load(h, x, block).1;
    if answer.Value? then answer.word else 0
  }

  function StoredIn(h: Hierarchy, x: nat, w: Word, block: nat): Hierarchy { HostMemory.Store(h, x, w, block).0 }

  /** A thread of a block, on the hierarchy. What loads leave in the caches is not kept,
      since it shows nowhere. */
  function OnHierarchy(p: Platform<Hierarchy>, block: nat): Platform<Hierarchy> {
    p.(load := (h: Hierarchy, x: bv64) => LoadedWord(h, Number(x), block),
       store := (h: Hierarchy, x: bv64, w: Word) => StoredIn(h, Number(x), w, block))
  }

  /** Hierarchies that differ in their caches at most. */
  predicate SameContents(h: Hierarchy, k: Hierarchy) {
    Consistent(h) && Consistent(k) && h.global == k.global && h.shared == k.shared && h.sharedSize == k.sharedSize
  }

  /** What is cached shows in no answer, and a load changes nothing else. */
  lemma CachesDoNotShow(h: Hierarchy, k: Hierarchy, x: nat, w: Word, block: nat)
    requires SameContents(h, k)
    ensures LoadedWord(h, x, block) == LoadedWord(k, x, block)
    ensures SameContents(HostMemory.Load(h, x, block).0, k)
    ensures SameContents(StoredIn(h, x, w, block), StoredIn(k, x, w, block))
  {
    hide SharedWord, SharedPut, Align, Consistent;
    if InWindow(h, Align(x)) {
      SharedStays(h, x, w, block);
      SharedStays(k, x, w, block);
    } else {
      LoadIsGlobal(h, x, block);
      LoadIsGlobal(k, x, block);
      StoreConsistent(h, x, w, block);
      StoreConsistent(k, x, w, block);
    }
  }

  lemma SharedStays(h: Hierarchy, x: nat, w: Word, block: nat)
    requires Consistent(h) && InWindow(h, Align(x))
    ensures HostMemory.Load(h, x, block).0 == h && Consistent(StoredIn(h, x, w, block))
  {
    hide Consistent;
    StoreConsistent(h, x, w, block);
  }

  /** Compiled kernels on the golden hierarchy: the same contents of every memory word
      as the source, the same barriers, the same return. */
  lemma CompiledOnHierarchy(p: Platform<Hierarchy>, block: nat, l: Launch, gp: Word, body: seq<Instr>,
                            s: Thread<Hierarchy>, t: State<Hierarchy>, k: nat)
    requires Emit(body).Emitted? && Related(Allocation(body), l, gp, body, s, t) && FineFor(OnHierarchy(p, block), l, gp, body, s, k)
    ensures var q := OnHierarchy(p, block);
            var s', t' := RunFor(q, l, body, s, k), Steps(q, Emit(body).code, t, CostFor(q, Allocation(body), l, body, s, k));
            && Related(Allocation(body), l, gp, body, s', t')
            && t'.barriers == s'.barriers && t'.halted == s'.halted
            && forall x: nat, b: nat :: LoadedWord(t'.mem, x, b) == LoadedWord(s'.mem, x, b)
  {
    hide Related, FineFor, RunFor, Steps, CostFor, Emit;
    CompilerCorrect(OnHierarchy(p, block), l, gp, body, s, t, k);
  }

  // ----- Addresses -----

  function Widened(w: Word): bv64 { w as bv64 }

  lemma WidenedBefore(w: Word)
    ensures Widened(0) == 0 && (w != 0 ==> Widened(w) != 0 && Widened(w) - 1 == Widened(w - 1))
  {
  }

  lemma {:induction false} NumberOfWord(w: Word)
    ensures Number(Widened(w)) == Nat(w)
    decreases w
  {
    hide Widened;
    WidenedBefore(w);
    if w != 0 {
      NumberOfWord(w - 1);
    }
  }

  lemma PositiveStays(w: Word)
    ensures TopClear(w) ==> Warp.SignExtend64(w) == Widened(w)
  {
  }

  /** Numbers below 2^31 leave the top bit of their word clear. */
  lemma {:induction false} LowerHalf(n: nat)
    requires n < HALF
    ensures TopClear(ToWord(n))
  {
    hide ToWord, Nat, TopClear;
    if n == 0 {
      Zero();
      ZeroClear();
    } else {
      LowerHalf(n - 1);
      Successor(n - 1);
      NatOf(n - 1);
      LastClear();
      ClearNext(ToWord(n - 1));
    }
  }

  predicate TopClear(w: Word) { w & 0x8000_0000 == 0 }

  lemma ZeroClear()
    ensures TopClear(0)
  {
  }

  lemma ClearNext(w: Word)
    requires TopClear(w) && w != 0x7FFF_FFFF
    ensures TopClear(Sum(w, 1))
  {
  }

  lemma LastClear()
    ensures Nat(0x7FFF_FFFF) == HALF - 1
  {
    hide ToWord, Nat;
    WordsOfPowers();
    NatOf(HALF);
    LastBefore();
    Counts(0x8000_0000);
  }

  lemma LastBefore()
    ensures Before(0x8000_0000) == 0x7FFF_FFFF
  {
  }

  /** Base and offset add as integers, wherever the sum is an address below 2 GiB. */
  lemma AddressNumber(u: int, v: int)
    requires 0 <= u + v < HALF
    ensures Number(Rv32.Address(ToWord(u), ToWord(v))) == u + v
  {
    hide ToWord, Nat, Warp.SignExtend64, Number, Widened, TopClear;
    ToWordAdds(u, v);
    NatOf(u + v);
    LowerHalf(u + v);
    PositiveStays(ToWord(u + v));
    NumberOfWord(ToWord(u + v));
  }

  function BaseWord(i: Values, base: Name): Word { if base == "" then 0 else i(base) }

  /** A shared access of a kernel is to its offset in the window, */
  lemma SharedAddress(i: Values, base: Name, offset: int)
    requires var o := Nat(BaseWord(i, base)) + offset; 0 <= 0x40_0000 + o < HALF
    ensures Number(PtxAddress(i, true, base, offset)) == 0x40_0000 + Nat(BaseWord(i, base)) + offset
  {
    hide ToWord, Nat, Rv32.Address, Number, Sum;
    WordOfNat(BaseWord(i, base));
    ToWordAdds(0x40_0000, Nat(BaseWord(i, base)));
    AddressNumber(0x40_0000 + Nat(BaseWord(i, base)), offset);
  }

  /** so within the window a shared store of a kernel changes the block's own memory at
      that offset, and neither global memory nor what any other block loads. */
  lemma SharedStore(p: Platform<Hierarchy>, l: Launch, block: nat, n: Instr, s: Thread<Hierarchy>)
    requires n.St? && n.shared && Consistent(s.mem) && 0x40_0000 + s.mem.sharedSize <= HALF
    requires 0 <= Nat(BaseWord(s.i, n.base)) + n.offset < s.mem.sharedSize
    ensures var h, t := s.mem, PtxEffect(OnHierarchy(p, block), l, n, s).mem;
            var o, w := Align(Nat(BaseWord(s.i, n.base)) + n.offset), if n.float then s.f(n.v) else s.i(n.v);
            && t.global == h.global && t.l1 == h.l1 && t.l2 == h.l2
            && (forall y: nat, c: nat :: c != block ==> LoadedWord(t, y, c) == LoadedWord(h, y, c))
            && (BlockHolds(h, block, o, 4) ==> BlockHolds(t, block, o, 4) && t.shared[block] == SharedPut(h.shared[block], o, w))
  {
    hide Number, Consistent, Nat, PtxAddress, SharedPut, StoredIn, Align, LoadedWord, BlockHolds;
    SharedAddress(s.i, n.base, n.offset);
    WindowStore(s.mem, Nat(BaseWord(s.i, n.base)) + n.offset, if n.float then s.f(n.v) else s.i(n.v), block);
  }

  lemma WindowStore(h: Hierarchy, x: nat, w: Word, block: nat)
    requires Consistent(h) && x < h.sharedSize
    ensures var t, o := StoredIn(h, 0x40_0000 + x, w, block), Align(x);
            && t.global == h.global && t.l1 == h.l1 && t.l2 == h.l2
            && (forall y: nat, c: nat :: c != block ==> LoadedWord(t, y, c) == LoadedWord(h, y, c))
            && (BlockHolds(h, block, o, 4) ==> BlockHolds(t, block, o, 4) && t.shared[block] == SharedPut(h.shared[block], o, w))
  {
    hide Consistent, SharedPut;
    assert Align(0x40_0000 + x) == 0x40_0000 + Align(x);
    var t := StoredIn(h, 0x40_0000 + x, w, block);
    if BlockHolds(h, block, Align(x), 4) {
      PutLength(h.shared[block], Align(x), w);
    }
    forall y: nat, c: nat | c != block ensures LoadedWord(t, y, c) == LoadedWord(h, y, c) {
      StoreLeaves(h, 0x40_0000 + x, w, block, y, c);
    }
  }
}

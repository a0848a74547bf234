// The golden memory hierarchy (models/systemc/src/memory/memory_hierarchy.cpp):
// word caches over a word map, byte transfers that go past the caches, and
// per-block shared memory.

module HostMemory {
  import opened Isa
  import opened Numbers
  import opened Cache
  import opened Memory

  type Byte = bv8

  // ----- Bytes of a word, least significant first -----

  function Byte0(w: Word): Byte { (w & 0xFF) as bv8 }
  function Byte1(w: Word): Byte { ((w >> 8) & 0xFF) as bv8 }
  function Byte2(w: Word): Byte { ((w >> 16) & 0xFF) as bv8 }
  function Byte3(w: Word): Byte { ((w >> 24) & 0xFF) as bv8 }

  function Put0(w: Word, b: Byte): Word { (w & 0xFFFF_FF00) | (b as bv32) }
  function Put1(w: Word, b: Byte): Word { (w & 0xFFFF_00FF) | ((b as bv32) << 8) }
  function Put2(w: Word, b: Byte): Word { (w & 0xFF00_FFFF) | ((b as bv32) << 16) }
  function Put3(w: Word, b: Byte): Word { (w & 0x00FF_FFFF) | ((b as bv32) << 24) }

  function ByteAt(w: Word, k: nat): Byte {
    if k == 0 then Byte0(w) else if k == 1 then Byte1(w) else if k == 2 then Byte2(w) else Byte3(w)
  }

  function PutByte(w: Word, k: nat, b: Byte): Word {
    if k == 0 then Put0(w, b) else if k == 1 then Put1(w, b) else if k == 2 then Put2(w, b) else Put3(w, b)
  }

  /** The word with these bytes, least significant first. */
  function Compose(b0: Byte, b1: Byte, b2: Byte, b3: Byte): Word {
    (b0 as bv32) | ((b1 as bv32) << 8) | ((b2 as bv32) << 16) | ((b3 as bv32) << 24)
  }

  lemma PutGet0(w: Word, b: Byte)
    ensures Byte0(Put0(w, b)) == b
    ensures Byte1(Put0(w, b)) == Byte1(w)
    ensures Byte2(Put0(w, b)) == Byte2(w)
    ensures Byte3(Put0(w, b)) == Byte3(w)
  {
  }

  lemma PutGet1(w: Word, b: Byte)
    ensures Byte0(Put1(w, b)) == Byte0(w)
    ensures Byte1(Put1(w, b)) == b
    ensures Byte2(Put1(w, b)) == Byte2(w)
    ensures Byte3(Put1(w, b)) == Byte3(w)
  {
  }

  lemma PutGet2(w: Word, b: Byte)
    ensures Byte0(Put2(w, b)) == Byte0(w)
    ensures Byte1(Put2(w, b)) == Byte1(w)
    ensures Byte2(Put2(w, b)) == b
    ensures Byte3(Put2(w, b)) == Byte3(w)
  {
  }

  lemma PutGet3(w: Word, b: Byte)
    ensures Byte0(Put3(w, b)) == Byte0(w)
    ensures Byte1(Put3(w, b)) == Byte1(w)
    ensures Byte2(Put3(w, b)) == Byte2(w)
    ensures Byte3(Put3(w, b)) == b
  {
  }

  lemma PutThenGet(w: Word, k: nat, b: Byte, j: nat)
    requires k < 4 && j < 4
    ensures ByteAt(PutByte(w, k, b), j) == if j == k then b else ByteAt(w, j)
  {
    hide Byte0, Byte1, Byte2, Byte3, Put0, Put1, Put2, Put3;
    if k == 0 {
      PutGet0(w, b);
    } else if k == 1 {
      PutGet1(w, b);
    } else if k == 2 {
      PutGet2(w, b);
    } else {
      PutGet3(w, b);
    }
  }

  lemma ComposeOfBytes(w: Word)
    ensures Compose(Byte0(w), Byte1(w), Byte2(w), Byte3(w)) == w
  {
  }

  // ----- The hierarchy -----

  const SHARED_BASE := 0x0040_0000
  const ADDRESSES := 0x1_0000_0000_0000_0000

  datatype Hierarchy = Hierarchy(sharedSize: nat, l1: map<nat, Word>, l2: map<nat, Word>, global: map<nat, Word>, shared: map<nat, seq<Byte>>)

  datatype Answer = Value(word: Word) | Refused

  function Align(x: nat): nat { x - x % 4 }

  /** Addresses are 64 bits wide. */
  function Wrap(x: nat): nat { x % ADDRESSES }

  predicate InWindow(h: Hierarchy, x: nat) { SHARED_BASE <= x < SHARED_BASE + h.sharedSize }

  function GlobalWord(g: map<nat, Word>, a: nat): Word { if a in g then g[a] else 0 }

  predicate BlockHolds(h: Hierarchy, block: nat, offset: nat, len: nat) {
    block in h.shared && offset + len <= |h.shared[block]|
  }

  function SharedWord(bytes: seq<Byte>, o: nat): Word
    requires o + 4 <= |bytes|
  {
    Compose(bytes[o], bytes[o + 1], bytes[o + 2], bytes[o + 3])
  }

  function SharedPut(bytes: seq<Byte>, o: nat, w: Word): seq<Byte>
    requires o + 4 <= |bytes|
  {
    bytes[o := Byte0(w)][o + 1 := Byte1(w)][o + 2 := Byte2(w)][o + 3 := Byte3(w)]
  }

  function Load(h: Hierarchy, x: nat, block: nat): (Hierarchy, Answer) {
    var a := Align(x);
    if InWindow(h, a) then
      (h, if BlockHolds(h, block, a - SHARED_BASE, 4) then Value(SharedWord(h.shared[block], a - SHARED_BASE)) else Refused)
    else if a in h.l1 then (h, Value(h.l1[a]))
    else if a in h.l2 then (h.(l1 := h.l1[a := h.l2[a]]), Value(h.l2[a]))
    else
      var w := GlobalWord(h.global, a);
      (h.(l1 := h.l1[a := w], l2 := h.l2[a := w]), Value(w))
  }

  function Store(h: Hierarchy, x: nat, w: Word, block: nat): (Hierarchy, bool) {
    var a := Align(x);
    if InWindow(h, a) then
      if BlockHolds(h, block, a - SHARED_BASE, 4)
      then (h.(shared := h.shared[block := SharedPut(h.shared[block], a - SHARED_BASE, w)]), true)
      else (h, false)
    else
      (h.(l1 := if a in h.l1 then h.l1[a := w] else h.l1, l2 := if a in h.l2 then h.l2[a := w] else h.l2,
          global := h.global[a := w]), true)
  }

  /** Cached words are memory's. */
  predicate Consistent(h: Hierarchy) {
    && (forall a :: a in h.l1 ==> h.l1[a] == GlobalWord(h.global, a))
    && forall a :: a in h.l2 ==> h.l2[a] == GlobalWord(h.global, a)
  }

  /** A load outside the shared window answers the word of global memory and changes no memory. */
  lemma LoadIsGlobal(h: Hierarchy, x: nat, block: nat)
    requires Consistent(h) && !InWindow(h, Align(x))
    ensures Load(h, x, block).1 == Value(GlobalWord(h.global, Align(x)))
    ensures var t := Load(h, x, block).0; Consistent(t) && t.global == h.global && t.shared == h.shared && t.sharedSize == h.sharedSize
  {
    hide SharedWord, BlockHolds, Align, GlobalWord;
  }

  lemma StoreConsistent(h: Hierarchy, x: nat, w: Word, block: nat)
    requires Consistent(h)
    ensures Consistent(Store(h, x, w, block).0)
  {
    hide SharedPut, BlockHolds, InWindow;
    var t := Store(h, x, w, block).0;
    assert forall a :: a != Align(x) ==> GlobalWord(t.global, a) == GlobalWord(h.global, a);
  }

  /** What was stored is what is loaded, in global and in shared memory alike. */
  lemma LoadAfterStore(h: Hierarchy, x: nat, w: Word, block: nat)
    requires Consistent(h) && Store(h, x, w, block).1
    ensures Load(Store(h, x, w, block).0, x, block).1 == Value(w)
  {
    hide Compose, Byte0, Byte1, Byte2, Byte3;
    var a, t := Align(x), Store(h, x, w, block).0;
    if InWindow(h, a) {
      ComposeOfBytes(w);
      var o := a - SHARED_BASE;
      assert t.shared[block][o] == Byte0(w) && t.shared[block][o + 1] == Byte1(w)
          && t.shared[block][o + 2] == Byte2(w) && t.shared[block][o + 3] == Byte3(w);
    } else {
      StoreConsistent(h, x, w, block);
      LoadIsGlobal(t, x, block);
    }
  }

  /** A word access is refused exactly in the window where the block has no such word,
      and then changes nothing. */
  lemma RefusedIff(h: Hierarchy, x: nat, w: Word, block: nat)
    ensures var inside := 0x40_0000 <= Align(x) < 0x40_0000 + h.sharedSize && !(block in h.shared && Align(x) + 4 <= 0x40_0000 + |h.shared[block]|);
            && (Load(h, x, block).1 == Refused <==> inside)
            && (!Store(h, x, w, block).1 <==> inside)
            && (inside ==> Load(h, x, block).0 == h && Store(h, x, w, block).0 == h)
  {
    hide SharedPut, SharedWord, Align;
  }

  /** Memory that was never written reads as 0. */
  lemma UnwrittenIsZero(h: Hierarchy, x: nat, block: nat)
    requires Consistent(h) && !InWindow(h, Align(x)) && Align(x) !in h.global
    ensures Load(h, x, block).1 == Value(0)
  {
    hide Align;
    LoadIsGlobal(h, x, block);
  }

  lemma WordsApart(x: nat, y: nat)
    ensures Align(x) % 4 == 0
    ensures Align(x) == Align(y) || Align(x) + 4 <= Align(y) || Align(y) + 4 <= Align(x)
  {
  }

  /** A store changes the bytes of its word and no others of the block's memory. */
  lemma PutLeaves(bytes: seq<Byte>, o: nat, w: Word, k: nat)
    requires o + 4 <= |bytes| && k < |bytes| && !(o <= k < o + 4)
    ensures |SharedPut(bytes, o, w)| == |bytes| && SharedPut(bytes, o, w)[k] == bytes[k]
  {
    hide Byte0, Byte1, Byte2, Byte3;
  }

  /** A store leaves every other word as it is, shared or global, and every other block's
      shared memory at the same address too. */
  lemma StoreLeaves(h: Hierarchy, x: nat, w: Word, block: nat, y: nat, c: nat)
    requires Consistent(h)
    requires Align(y) != Align(x) || (InWindow(h, Align(x)) && c != block)
    ensures Load(Store(h, x, w, block).0, y, c).1 == Load(h, y, c).1
  {
    hide Compose, SharedPut, Align;
    var t := Store(h, x, w, block).0;
    WordsApart(x, y);
    if InWindow(h, Align(y)) {
      if c == block && t.shared != h.shared {
        var o, a := Align(x) - SHARED_BASE, Align(y) - SHARED_BASE;
        PutKeepsWord(h.shared[block], o, w, a);
      }
    } else {
      StoreConsistent(h, x, w, block);
      LoadIsGlobal(h, y, c);
      LoadIsGlobal(t, y, c);
    }
  }

  lemma PutKeepsWord(bytes: seq<Byte>, o: nat, w: Word, a: nat)
    requires o + 4 <= |bytes| && (a + 4 <= o || o + 4 <= a)
    ensures |SharedPut(bytes, o, w)| == |bytes|
    ensures a + 4 <= |bytes| ==> SharedWord(SharedPut(bytes, o, w), a) == SharedWord(bytes, a)
  {
    hide Compose, SharedPut;
    forall k | 0 <= k < |bytes| && !(o <= k < o + 4) ensures |SharedPut(bytes, o, w)| == |bytes| && SharedPut(bytes, o, w)[k] == bytes[k] {
      PutLeaves(bytes, o, w, k);
    }
    assert |SharedPut(bytes, o, w)| == |bytes| by { PutLength(bytes, o, w); }
  }

  lemma PutLength(bytes: seq<Byte>, o: nat, w: Word)
    requires o + 4 <= |bytes|
    ensures |SharedPut(bytes, o, w)| == |bytes|
  {
    hide Byte0, Byte1, Byte2, Byte3;
  }

  // ----- Byte transfers -----

  /** The byte of global memory at address x. */
  function FlatByte(h: Hierarchy, x: nat): Byte { ByteAt(GlobalWord(h.global, Align(x)), x % 4) }

  function WriteByte(h: Hierarchy, x: nat, b: Byte): Hierarchy {
    var a := Align(x);
    h.(global := h.global[a := PutByte(GlobalWord(h.global, a), x % 4, b)], l1 := h.l1 - {a}, l2 := h.l2 - {a})
  }

  function BytesWritten(h: Hierarchy, x: nat, data: seq<Byte>, n: nat): Hierarchy
    requires n <= |data|
  {
    if n == 0 then h else WriteByte(BytesWritten(h, x, data, n - 1), Wrap(x + n - 1), data[n - 1])
  }

  /** `writeBytes`: a transfer that starts in the shared window must fit the block. */
  function Uploaded(h: Hierarchy, x: nat, data: seq<Byte>, block: nat): Hierarchy {
    if InWindow(h, x) then
      var o := x - SHARED_BASE;
      if BlockHolds(h, block, o, |data|) && x + |data| <= SHARED_BASE + h.sharedSize
      then h.(shared := h.shared[block := h.shared[block][..o] + data + h.shared[block][o + |data|..]])
      else h
    else BytesWritten(h, x, data, |data|)
  }

  function Downloaded(h: Hierarchy, x: nat, len: nat, block: nat): seq<Byte> {
    if InWindow(h, x) then
      var o := x - SHARED_BASE;
      if BlockHolds(h, block, o, len) && x + len <= SHARED_BASE + h.sharedSize
      then h.shared[block][o..o + len]
      else seq(len, _ => 0)
    else seq(len, i requires 0 <= i < len => FlatByte(h, Wrap(x + i)))
  }

  lemma ByteParts(x: nat, y: nat)
    ensures Align(x) == Align(y) && x % 4 == y % 4 ==> x == y
    ensures x % 4 < 4
  {
  }

  /** Writing a byte changes that byte of memory and no other, and keeps the caches right. */
  lemma WriteByteIsFlat(h: Hierarchy, x: nat, b: Byte, y: nat)
    ensures FlatByte(WriteByte(h, x, b), y) == if y == x then b else FlatByte(h, y)
  {
    hide ByteAt, PutByte, Align;
    ByteParts(x, y);
    ByteParts(y, x);
    PutThenGet(GlobalWord(h.global, Align(x)), x % 4, b, y % 4);
  }

  lemma WriteByteConsistent(h: Hierarchy, x: nat, b: Byte)
    requires Consistent(h)
    ensures Consistent(WriteByte(h, x, b))
  {
    hide PutByte;
    assert forall a :: a != Align(x) ==> GlobalWord(WriteByte(h, x, b).global, a) == GlobalWord(h.global, a);
  }

  /** One of the n bytes from x on is y. */
  predicate Covered(x: nat, n: nat, y: nat)
    decreases n
  {
    n > 0 && (y == Wrap(x + n - 1) || Covered(x, n - 1, y))
  }

  lemma WrapInjective(x: nat, i: nat, j: nat)
    requires i < ADDRESSES && j < ADDRESSES && Wrap(x + i) == Wrap(x + j)
    ensures i == j
  {
  }

  /** A byte transfer is flat: the bytes it covers are the data, all others stay. */
  lemma {:induction false} TransferIsFlat(h: Hierarchy, x: nat, data: seq<Byte>, n: nat)
    requires n <= |data| < ADDRESSES
    ensures forall i :: 0 <= i < n ==> FlatByte(BytesWritten(h, x, data, n), Wrap(x + i)) == data[i]
    ensures forall y: nat :: !Covered(x, n, y) ==> FlatByte(BytesWritten(h, x, data, n), y) == FlatByte(h, y)
    ensures Consistent(h) ==> Consistent(BytesWritten(h, x, data, n))
    ensures BytesWritten(h, x, data, n).sharedSize == h.sharedSize
  {
    hide FlatByte, Wrap, Consistent;
    if n > 0 {
      var k := n - 1;
      var before := BytesWritten(h, x, data, k);
      var last := Wrap(x + k);
      assert BytesWritten(h, x, data, n) == WriteByte(before, last, data[k]);
      TransferIsFlat(h, x, data, k);
      forall i | 0 <= i < n ensures FlatByte(BytesWritten(h, x, data, n), Wrap(x + i)) == data[i] {
        WriteByteIsFlat(before, last, data[k], Wrap(x + i));
        if Wrap(x + i) == last {
          WrapInjective(x, i, k);
        }
      }
      forall y: nat | !Covered(x, n, y) ensures FlatByte(BytesWritten(h, x, data, n), y) == FlatByte(h, y) {
        WriteByteIsFlat(before, last, data[k], y);
      }
      if Consistent(h) {
        WriteByteConsistent(before, last, data[k]);
      }
    }
  }

  /** What a transfer wrote is what a transfer reads, although reads pass the caches by. */
  lemma ReadAfterWrite(h: Hierarchy, x: nat, data: seq<Byte>, block: nat)
    requires |data| < ADDRESSES
    requires InWindow(h, x) ==> BlockHolds(h, block, x - SHARED_BASE, |data|) && x + |data| <= SHARED_BASE + h.sharedSize
    ensures Downloaded(Uploaded(h, x, data, block), x, |data|, block) == data
  {
    hide FlatByte, Wrap;
    if !InWindow(h, x) {
      TransferIsFlat(h, x, data, |data|);
    }
  }

  /** The byte a transfer reads at y for block c. */
  function ByteRead(h: Hierarchy, y: nat, c: nat): Byte { Downloaded(h, y, 1, c)[0] }

  lemma SameFlatByte(h: Hierarchy, t: Hierarchy, y: nat)
    requires t.global == h.global
    ensures FlatByte(t, y) == FlatByte(h, y)
  {
  }

  lemma ByteOutside(h: Hierarchy, y: nat, c: nat)
    requires !InWindow(h, y)
    ensures ByteRead(h, y, c) == FlatByte(h, Wrap(y))
  {
    hide FlatByte;
    assert y + 0 == y;
  }

  lemma ByteInWindow(h: Hierarchy, y: nat, c: nat)
    requires InWindow(h, y)
    ensures ByteRead(h, y, c) == if BlockHolds(h, c, y - SHARED_BASE, 1) then h.shared[c][y - SHARED_BASE] else 0
  {
  }

  lemma UploadedByte(h: Hierarchy, x: nat, data: seq<Byte>, block: nat, o: nat, c: nat)
    requires InWindow(h, x) && (c != block || !(x <= SHARED_BASE + o < x + |data|))
    ensures var t := Uploaded(h, x, data, block);
            && (BlockHolds(t, c, o, 1) <==> BlockHolds(h, c, o, 1))
            && (BlockHolds(h, c, o, 1) ==> t.shared[c][o] == h.shared[c][o])
  {
  }

  /** A transfer into the window leaves all bytes outside it, other blocks and global
      memory as they are. */
  lemma UploadLeaves(h: Hierarchy, x: nat, data: seq<Byte>, block: nat, y: nat, c: nat)
    requires InWindow(h, x) && (c != block || !(x <= y < x + |data|))
    ensures ByteRead(Uploaded(h, x, data, block), y, c) == ByteRead(h, y, c)
    ensures var t := Uploaded(h, x, data, block); t.global == h.global && t.l1 == h.l1 && t.l2 == h.l2 && t.sharedSize == h.sharedSize
  {
    hide FlatByte, ByteRead, BlockHolds;
    var t := Uploaded(h, x, data, block);
    if !InWindow(h, y) {
      ByteOutside(h, y, c);
      ByteOutside(t, y, c);
      SameFlatByte(h, t, Wrap(y));
    } else {
      var o := y - SHARED_BASE;
      UploadedByte(h, x, data, block, o, c);
      ByteInWindow(h, y, c);
      ByteInWindow(t, y, c);
    }
  }

  /** and so it does the words loaded. */
  lemma UploadLeavesWords(h: Hierarchy, x: nat, data: seq<Byte>, block: nat, y: nat, c: nat)
    requires InWindow(h, x) && (c != block || Align(y) + 4 <= x || x + |data| <= Align(y))
    ensures Load(Uploaded(h, x, data, block), y, c).1 == Load(h, y, c).1
  {
    hide Compose, Align;
  }

  /** A transfer that starts in the window is made exactly if it ends in it and the block
      has the bytes; otherwise nothing is written, and zeros are read. */
  lemma TransferMadeIff(h: Hierarchy, x: nat, data: seq<Byte>, block: nat)
    requires 0x40_0000 <= x < 0x40_0000 + h.sharedSize
    ensures var t, end := Uploaded(h, x, data, block), x - 0x40_0000 + |data|;
            if block in h.shared && end <= |h.shared[block]| && end <= h.sharedSize then
              block in t.shared && |t.shared[block]| == |h.shared[block]| && t.shared[block][x - 0x40_0000..end] == data
              && Downloaded(t, x, |data|, block) == data
            else t == h && forall k :: 0 <= k < |data| ==> Downloaded(h, x, |data|, block)[k] == 0
  {
    hide FlatByte;
  }

  /** A transfer outside the window leaves shared memory as it is. */
  lemma {:induction false} BytesLeaveShared(h: Hierarchy, x: nat, data: seq<Byte>, n: nat)
    requires n <= |data|
    ensures BytesWritten(h, x, data, n).shared == h.shared && BytesWritten(h, x, data, n).sharedSize == h.sharedSize
  {
    hide Wrap;
    if n > 0 {
      BytesLeaveShared(h, x, data, n - 1);
    }
  }

  /** A word load sees the transferred bytes, least significant first. */
  lemma LoadSeesBytes(h: Hierarchy, x: nat, block: nat)
    requires Consistent(h) && !InWindow(h, Align(x))
    ensures var a := Align(x);
            Load(h, x, block).1 == Value(Compose(FlatByte(h, a), FlatByte(h, a + 1), FlatByte(h, a + 2), FlatByte(h, a + 3)))
  {
    hide Compose, Byte0, Byte1, Byte2, Byte3;
    LoadIsGlobal(h, x, block);
    ComposeOfBytes(GlobalWord(h.global, Align(x)));
    AlignedBytes(x);
  }

  lemma AlignedBytes(x: nat)
    ensures var a := Align(x);
            && Align(a) == Align(a + 1) == Align(a + 2) == Align(a + 3) == a
            && a % 4 == 0 && (a + 1) % 4 == 1 && (a + 2) % 4 == 2 && (a + 3) % 4 == 3
  {
  }

  /** and a byte read sees stored words the same way, others unchanged. */
  lemma BytesSeeStore(h: Hierarchy, x: nat, w: Word, block: nat, y: nat)
    requires !InWindow(h, Align(x))
    ensures FlatByte(Store(h, x, w, block).0, y) == if Align(y) == Align(x) then ByteAt(w, y % 4) else FlatByte(h, y)
  {
    hide ByteAt;
  }

  // ----- Parity with the HLS subsystem -----

  /** The same memory, by byte address here and by word address there. */
  ghost predicate SameMemory(g: Words, h: Hierarchy) {
    forall a: nat :: g(a) == GlobalWord(h.global, 4 * a)
  }

  predicate OutsideWindows(h: Hierarchy, r: Request) {
    !IsShared(WordOf(r.address)) && !InWindow(h, Align(r.address))
  }

  function GoldenHandle(h: Hierarchy, r: Request): (Hierarchy, Word) {
    if r.write then (Store(h, r.address, r.data, 0).0, 0)
    else
      var t := Load(h, r.address, 0);
      (t.0, if t.1.Value? then t.1.word else 0)
  }

  function GoldenAnswers(h: Hierarchy, rs: seq<Request>): seq<Word>
    decreases |rs|
  {
    if rs == [] then [] else [GoldenHandle(h, rs[0]).1] + GoldenAnswers(GoldenHandle(h, rs[0]).0, rs[1..])
  }

  lemma SameAddress(x: nat)
    ensures Align(x) == 4 * WordOf(x)
  {
  }

  lemma SameStep(f: Flat, h: Hierarchy, r: Request)
    requires Consistent(h) && SameMemory(f.global, h) && OutsideWindows(h, r) && r.cu < |f.shared|
    ensures FlatHandle(f, r).1 == GoldenHandle(h, r).1
    ensures var t := GoldenHandle(h, r).0;
            Consistent(t) && SameMemory(FlatHandle(f, r).0.global, t) && t.sharedSize == h.sharedSize
  {
    hide InWindow, Align, WordOf, IsShared, Consistent;
    SameAddress(r.address);
    if r.write {
      StoreConsistent(h, r.address, r.data, 0);
    } else {
      LoadIsGlobal(h, r.address, 0);
    }
  }

  lemma {:induction false} FlatIsGolden(f: Flat, h: Hierarchy, rs: seq<Request>)
    requires Consistent(h) && SameMemory(f.global, h) && InRange(|f.shared|, rs)
    requires forall i :: 0 <= i < |rs| ==> OutsideWindows(h, rs[i])
    ensures FlatAnswers(f, rs) == GoldenAnswers(h, rs)
    decreases |rs|
  {
    hide FlatHandle, GoldenHandle, SameMemory, Consistent;
    if rs != [] {
      SameStep(f, h, rs[0]);
      FlatShape(f, rs[0]);
      FlatIsGolden(FlatHandle(f, rs[0]).0, GoldenHandle(h, rs[0]).0, rs[1..]);
    }
  }

  /** On any traffic outside both shared windows that reads nothing stale, the
      hardware's caches and the golden ones answer alike, however they hit or miss. */
  lemma FreshParity(m: Subsystem, stale: Stale, h: Hierarchy, rs: seq<Request>)
    requires Memory.Coherent(m, stale) && Ready(m) && |stale| == |m.l1| && InRange(|m.l1|, rs) && Fresh(m, stale, rs)
    requires Consistent(h) && SameMemory(m.global, h)
    requires forall i :: 0 <= i < |rs| ==> OutsideWindows(h, rs[i])
    ensures Answers(m, rs) == GoldenAnswers(h, rs)
  {
    hide FlatHandle, GoldenHandle, SameMemory, Consistent, Memory.Coherent, Answers, FlatAnswers, GoldenAnswers, Fresh;
    FreshIsFlat(m, stale, rs);
    FlatIsGolden(FlatOf(m), h, rs);
  }

  /** So they do on any traffic of one unit outside both shared windows. */
  lemma MemoryParity(m: Subsystem, stale: Stale, c: nat, h: Hierarchy, rs: seq<Request>)
    requires Memory.Coherent(m, stale) && Ready(m) && c < |m.l1| && stale[c] == {} && OnlyFrom(c, rs)
    requires Consistent(h) && SameMemory(m.global, h)
    requires forall i :: 0 <= i < |rs| ==> OutsideWindows(h, rs[i])
    ensures Answers(m, rs) == GoldenAnswers(h, rs)
  {
    hide GoldenHandle, SameMemory, Consistent, Memory.Coherent, Answers, GoldenAnswers, Fresh, StaleThrough;
    CoherentShape(m, stale);
    AloneIsFresh(m, stale, c, rs);
    FreshParity(m, stale, h, rs);
  }

  // ----- The class -----

  /** `MemoryHierarchy`: four maps updated in place. */
  class MemoryHierarchy {
    const sharedSize: nat
    var l1Cache: map<nat, Word>
    var l2Cache: map<nat, Word>
    var globalMemory: map<nat, Word>
    var sharedMemory: map<nat, seq<Byte>>

    constructor (sharedSize: nat)
      ensures this.sharedSize == sharedSize && Contents() == Hierarchy(sharedSize, map[], map[], map[], map[])
    {
      this.sharedSize := sharedSize;
      l1Cache, l2Cache, globalMemory, sharedMemory := map[], map[], map[], map[];
    }

    ghost function Contents(): Hierarchy
      reads this
    {
      Hierarchy(sharedSize, l1Cache, l2Cache, globalMemory, sharedMemory)
    }

    method AllocateSharedMemory(block: nat, size: nat) returns (ok: bool)
      modifies this`sharedMemory
      ensures ok == (size <= sharedSize)
      ensures Contents() == if ok then old(Contents()).(shared := old(sharedMemory)[block := seq(size, _ => 0)]) else old(Contents())
    {
      if size > sharedSize {
        return false;
      }
      sharedMemory := sharedMemory[block := seq(size, _ => 0)];
      return true;
    }

    method LoadWord(x: nat, block: nat) returns (answer: Answer)
      modifies this`l1Cache, this`l2Cache
      ensures (Contents(), answer) == Load(old(Contents()), x, block)
    {
      hide SharedWord;
      var a := Align(x);
      if SHARED_BASE <= a < SHARED_BASE + sharedSize {
        var o := a - SHARED_BASE;
        if block !in sharedMemory || o + 4 > |sharedMemory[block]| {
          return Refused;
        }
        return Value(SharedWord(sharedMemory[block], o));
      }
      if a in l1Cache {
        return Value(l1Cache[a]);
      }
      if a in l2Cache {
        var data := l2Cache[a];
        l1Cache := l1Cache[a := data];
        return Value(data);
      }
      var data := GlobalWord(globalMemory, a);
      l2Cache := l2Cache[a := data];
      l1Cache := l1Cache[a := data];
      return Value(data);
    }

    method StoreWord(x: nat, data: Word, block: nat) returns (ok: bool)
      modifies this
      ensures (Contents(), ok) == Store(old(Contents()), x, data, block)
    {
      hide SharedPut;
      var a := Align(x);
      if SHARED_BASE <= a < SHARED_BASE + sharedSize {
        var o := a - SHARED_BASE;
        if block !in sharedMemory || o + 4 > |sharedMemory[block]| {
          return false;
        }
        sharedMemory := sharedMemory[block := SharedPut(sharedMemory[block], o, data)];
        return true;
      }
      if a in l1Cache {
        l1Cache := l1Cache[a := data];
      }
      if a in l2Cache {
        l2Cache := l2Cache[a := data];
      }
      globalMemory := globalMemory[a := data];
      return true;
    }

    method InvalidateCache()
      modifies this`l1Cache, this`l2Cache
      ensures Contents() == old(Contents()).(l1 := map[], l2 := map[])
    {
      l1Cache, l2Cache := map[], map[];
    }

    method WriteBytes(x: nat, data: seq<Byte>, block: nat)
      modifies this
      ensures Contents() == Uploaded(old(Contents()), x, data, block)
    {
      hide PutByte, Wrap;
      if SHARED_BASE <= x < SHARED_BASE + sharedSize {
        var o := x - SHARED_BASE;
        if block !in sharedMemory || x + |data| > SHARED_BASE + sharedSize || o + |data| > |sharedMemory[block]| {
          return;
        }
        var bytes := sharedMemory[block];
        sharedMemory := sharedMemory[block := bytes[..o] + data + bytes[o + |data|..]];
        return;
      }
      ghost var before := Contents();
      for i := 0 to |data|
        invariant Contents() == BytesWritten(before, x, data, i)
      {
        var byteAddress := Wrap(x + i);
        var a := Align(byteAddress);
        globalMemory := globalMemory[a := PutByte(GlobalWord(globalMemory, a), byteAddress % 4, data[i])];
        l1Cache := l1Cache - {a};
        l2Cache := l2Cache - {a};
        assert Contents() == WriteByte(BytesWritten(before, x, data, i), Wrap(x + i + 1 - 1), data[i]);
      }
    }

    method ReadBytes(x: nat, len: nat, block: nat) returns (data: seq<Byte>)
      ensures data == Downloaded(Contents(), x, len, block)
    {
      hide ByteAt, Wrap;
      if SHARED_BASE <= x < SHARED_BASE + sharedSize {
        var o := x - SHARED_BASE;
        if block !in sharedMemory || x + len > SHARED_BASE + sharedSize || o + len > |sharedMemory[block]| {
          return seq(len, _ => 0);
        }
        return sharedMemory[block][o..o + len];
      }
      data := [];
      for i := 0 to len
        invariant |data| == i && forall k :: 0 <= k < i ==> data[k] == FlatByte(Contents(), Wrap(x + k))
      {
        var byteAddress := Wrap(x + i);
        data := data + [ByteAt(GlobalWord(globalMemory, Align(byteAddress)), byteAddress % 4)];
      }
    }
  }
}

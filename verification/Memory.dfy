// The HLS memory subsystem (hls/src/memory/memory_pipeline.h): one L1 per unit
// over a shared L2, write-through without write-allocate, over flat memory.
// Addresses here are word addresses; byte addresses are 4 times as large.

module Memory {
  import opened Isa
  import opened Cache

  const SHARED_WORDS := 8192

  type Words = nat -> Word

  function Put(g: Words, a: nat, v: Word): Words { (x: nat) => if x == a then v else g(x) }

  datatype Subsystem = Subsystem(l1: seq<Bank>, l2: Bank, shared: seq<Words>, global: Words)

  datatype Request = Request(cu: nat, address: nat, write: bool, data: Word)

  /** `alignAddress` drops the two low bits of the byte address. */
  function WordOf(byteAddress: nat): nat { byteAddress / 4 }

  predicate IsShared(a: nat) { a < SHARED_WORDS }

  function GlobalLine(g: Words, a: nat): seq<Word> {
    seq(WORDS_PER_LINE, i requires 0 <= i < WORDS_PER_LINE => g(LineOf(a) * WORDS_PER_LINE + i))
  }

  function LoadWord(m: Subsystem, c: nat, a: nat): (Subsystem, Word)
    requires c < |m.l1| && m.l1[c].Shaped() && m.l2.Shaped()
  {
    var l1, l2 := m.l1[c], m.l2;
    if l1.Lookup(a) < l1.ways then (m, l1.WordAt(l1.Lookup(a), a))
    else if l2.Lookup(a) < l2.ways then
      (m.(l1 := m.l1[c := l1.FillLine(a, l2.LineAt(l2.Lookup(a), a))]), l2.WordAt(l2.Lookup(a), a))
    else
      var line := GlobalLine(m.global, a);
      (m.(l1 := m.l1[c := l1.FillLine(a, line)], l2 := l2.FillLine(a, line)), line[IndexOf(a)])
  }

  function Written(b: Bank, a: nat, v: Word): Bank
    requires b.Shaped()
  {
    if b.Lookup(a) < b.ways then b.WriteWord(b.Lookup(a), a, v) else b
  }

  function StoreWord(m: Subsystem, c: nat, a: nat, v: Word): Subsystem
    requires c < |m.l1| && m.l1[c].Shaped() && m.l2.Shaped()
  {
    m.(l1 := m.l1[c := Written(m.l1[c], a, v)], l2 := Written(m.l2, a, v), global := Put(m.global, a, v))
  }

  predicate Ready(m: Subsystem) {
    && |m.shared| == |m.l1| && m.l2.Shaped()
    && forall c :: 0 <= c < |m.l1| ==> m.l1[c].Shaped()
  }

  /** `handleRequest`; a write is answered with 0. */
  function Handle(m: Subsystem, r: Request): (Subsystem, Word)
    requires Ready(m) && r.cu < |m.l1|
  {
    var a := WordOf(r.address);
    if IsShared(a) then
      if r.write then (m.(shared := m.shared[r.cu := Put(m.shared[r.cu], a, r.data)]), 0) else (m, m.shared[r.cu](a))
    else if r.write then (StoreWord(m, r.cu, a, r.data), 0)
    else LoadWord(m, r.cu, a)
  }

  // ----- Agreement with flat memory -----

  /** Every valid word of the bank is memory's, except at stale addresses. */
  predicate Agrees(b: Bank, g: Words, stale: set<nat>)
    requires b.Shaped()
  {
    forall w, s, i :: 0 <= w < b.ways && 0 <= s < b.sets && 0 <= i < WORDS_PER_LINE && b.entry(w, s).valid ==>
      AddressOf(b.sets, b.entry(w, s).tag, s, i) in stale || b.entry(w, s).words[i] == g(AddressOf(b.sets, b.entry(w, s).tag, s, i))
  }

  predicate BankOk(b: Bank, g: Words, stale: set<nat>) {
    b.Shaped() && b.NoTagTwice() && Agrees(b, g, stale)
  }

  /** Resident words are memory's. */
  lemma AgreesAt(b: Bank, g: Words, stale: set<nat>, w: nat, a: nat)
    requires BankOk(b, g, stale) && w < b.ways && b.Matches(w, a)
    ensures a in stale || b.WordAt(w, a) == g(a)
  {
    Slices(b.sets, a);
    var s, i := SetOf(b.sets, a), IndexOf(a);
    assert AddressOf(b.sets, b.entry(w, s).tag, s, i) == a;
  }

  lemma LineAddress(sets: nat, a: nat, i: nat)
    requires 0 < sets && i < WORDS_PER_LINE
    ensures AddressOf(sets, TagOf(sets, a), SetOf(sets, a), i) == LineOf(a) * WORDS_PER_LINE + i
  {
    Slices(sets, a);
    var line := LineOf(a);
    assert line == line / sets * sets + line % sets;
  }

  /** A resident line without stale words is memory's line. */
  lemma AgreesLine(b: Bank, g: Words, w: nat, a: nat)
    requires BankOk(b, g, {}) && w < b.ways && b.Matches(w, a)
    ensures b.LineAt(w, a) == GlobalLine(g, a)
  {
    hide AddressOf, TagOf, SetOf, LineOf;
    Slices(b.sets, a);
    var s := SetOf(b.sets, a);
    forall i | 0 <= i < WORDS_PER_LINE ensures b.LineAt(w, a)[i] == GlobalLine(g, a)[i] {
      LineAddress(b.sets, a, i);
      assert b.entry(w, s).valid;
    }
  }

  /** The words of the line of a. */
  predicate InLine(a: nat, x: nat) { LineOf(x) == LineOf(a) }

  function Without(stale: set<nat>, a: nat): set<nat> { set x | x in stale && !InLine(a, x) }

  lemma FillAgrees(b: Bank, g: Words, stale: set<nat>, a: nat)
    requires BankOk(b, g, stale) && !b.Resident(a)
    ensures BankOk(b.FillLine(a, GlobalLine(g, a)), g, Without(stale, a))
  {
    hide AddressOf, TagOf, SetOf;
    var c, line := b.FillLine(a, GlobalLine(g, a)), GlobalLine(g, a);
    FillKeeps(b, a, line);
    Slices(b.sets, a);
    var s0 := SetOf(b.sets, a);
    forall w, s, i | 0 <= w < c.ways && 0 <= s < c.sets && 0 <= i < WORDS_PER_LINE && c.entry(w, s).valid
      ensures var x := AddressOf(c.sets, c.entry(w, s).tag, s, i); x in Without(stale, a) || c.entry(w, s).words[i] == g(x)
    {
      var tag := c.entry(w, s).tag;
      var x := AddressOf(c.sets, tag, s, i);
      Assembled(c.sets, tag, s, i);
      if w == b.victim(s0) && s == s0 {
        LineAddress(b.sets, a, i);
      } else {
        assert c.entry(w, s) == b.entry(w, s);
        if InLine(a, x) {
          ResidentToo(b, w, a, x);
          assert false;
        }
      }
    }
  }

  lemma ResidentToo(b: Bank, w: nat, a: nat, x: nat)
    requires b.sets > 0 && w < b.ways && InLine(a, x) && b.Matches(w, x)
    ensures b.Resident(a)
  {
    assert b.Matches(w, a);
  }

  /** A store refreshes the word in its own bank. */
  lemma WriteAgrees(b: Bank, g: Words, stale: set<nat>, a: nat, v: Word)
    requires BankOk(b, g, stale)
    ensures BankOk(Written(b, a, v), Put(g, a, v), stale - {a})
  {
    hide AddressOf, TagOf, SetOf;
    LookupFinds(b, a);
    Slices(b.sets, a);
    var c, h := Written(b, a, v), Put(g, a, v);
    if b.Lookup(a) < b.ways {
      WriteKeeps(b, b.Lookup(a), a, v);
    }
    forall w, s, i | 0 <= w < c.ways && 0 <= s < c.sets && 0 <= i < WORDS_PER_LINE && c.entry(w, s).valid
      ensures var x := AddressOf(c.sets, c.entry(w, s).tag, s, i); x in stale - {a} || c.entry(w, s).words[i] == h(x)
    {
      var tag := c.entry(w, s).tag;
      var x := AddressOf(c.sets, tag, s, i);
      Assembled(c.sets, tag, s, i);
      assert tag == b.entry(w, s).tag && b.entry(w, s).valid;
      if x == a {
        assert b.Matches(w, a);
      } else {
        assert c.entry(w, s).words[i] == b.entry(w, s).words[i];
      }
    }
  }

  /** Elsewhere it makes the word stale. */
  lemma OtherAgrees(b: Bank, g: Words, stale: set<nat>, a: nat, v: Word)
    requires BankOk(b, g, stale)
    ensures BankOk(b, Put(g, a, v), stale + {a})
  {
  }

  // ----- The whole subsystem -----

  /** Per unit, the words another unit has stored since this one filled or stored them. */
  type Stale = seq<set<nat>>

  predicate Coherent(m: Subsystem, stale: Stale) {
    && |stale| == |m.l1| == |m.shared|
    && BankOk(m.l2, m.global, {})
    && forall c :: 0 <= c < |m.l1| ==> BankOk(m.l1[c], m.global, stale[c])
  }

  predicate Hits(m: Subsystem, c: nat, a: nat)
    requires c < |m.l1| && m.l1[c].Shaped()
  {
    m.l1[c].Lookup(a) < m.l1[c].ways
  }

  function StaleAfter(m: Subsystem, stale: Stale, r: Request): Stale
    requires |stale| == |m.l1| && r.cu < |m.l1| && m.l1[r.cu].Shaped()
  {
    var a := WordOf(r.address);
    if IsShared(a) then stale
    else if r.write then
      seq(|stale|, c requires 0 <= c < |stale| => if c == r.cu then stale[c] - {a} else stale[c] + {a})
    else if Hits(m, r.cu, a) then stale
    else stale[r.cu := Without(stale[r.cu], a)]
  }

  /** What memory without caches would hold and answer. */
  datatype Flat = Flat(shared: seq<Words>, global: Words)

  function FlatHandle(f: Flat, r: Request): (Flat, Word)
    requires r.cu < |f.shared|
  {
    var a := WordOf(r.address);
    if IsShared(a) then
      if r.write then (f.(shared := f.shared[r.cu := Put(f.shared[r.cu], a, r.data)]), 0) else (f, f.shared[r.cu](a))
    else if r.write then (f.(global := Put(f.global, a, r.data)), 0)
    else (f, f.global(a))
  }

  function FlatOf(m: Subsystem): Flat { Flat(m.shared, m.global) }

  predicate ReadsStale(m: Subsystem, stale: Stale, r: Request)
    requires |stale| == |m.l1| && r.cu < |m.l1| && m.l1[r.cu].Shaped()
  {
    var a := WordOf(r.address);
    !r.write && !IsShared(a) && Hits(m, r.cu, a) && a in stale[r.cu]
  }

  lemma LoadCoherent(m: Subsystem, stale: Stale, c: nat, a: nat)
    requires Coherent(m, stale) && c < |m.l1| && Ready(m)
    ensures var t := LoadWord(m, c, a);
            && Coherent(t.0, if Hits(m, c, a) then stale else stale[c := Without(stale[c], a)])
            && FlatOf(t.0) == FlatOf(m)
            && ((Hits(m, c, a) && a in stale[c]) || t.1 == m.global(a))
  {
    hide Agrees;
    var l1, l2 := m.l1[c], m.l2;
    LookupFinds(l1, a);
    LookupFinds(l2, a);
    if Hits(m, c, a) {
      AgreesAt(l1, m.global, stale[c], l1.Lookup(a), a);
    } else {
      hide BankOk, Bank.Shaped;
      FillAgrees(l1, m.global, stale[c], a);
      if l2.Lookup(a) < l2.ways {
        AgreesLine(l2, m.global, l2.Lookup(a), a);
        AgreesAt(l2, m.global, {}, l2.Lookup(a), a);
      } else {
        FillAgrees(l2, m.global, {}, a);
        assert Without({}, a) == {};
        LineWord(m.global, a);
      }
    }
  }

  lemma LineWord(g: Words, a: nat)
    ensures GlobalLine(g, a)[IndexOf(a)] == g(a)
  {
    assert LineOf(a) * WORDS_PER_LINE + IndexOf(a) == a;
  }

  lemma StoreCoherent(m: Subsystem, stale: Stale, c: nat, a: nat, v: Word)
    requires Coherent(m, stale) && c < |m.l1| && Ready(m)
    ensures Coherent(StoreWord(m, c, a, v),
                     seq(|stale|, d requires 0 <= d < |stale| => if d == c then stale[d] - {a} else stale[d] + {a}))
  {
    hide BankOk, Written, Put;
    WriteAgrees(m.l2, m.global, {}, a, v);
    assert {} - {a} == {};
    WriteAgrees(m.l1[c], m.global, stale[c], a, v);
    forall d | 0 <= d < |m.l1| && d != c ensures BankOk(m.l1[d], Put(m.global, a, v), stale[d] + {a}) {
      OtherAgrees(m.l1[d], m.global, stale[d], a, v);
    }
  }

  /** Every request keeps the caches in agreement with memory, memory itself is
      flat, and only a load that reads a stale word is answered differently. */
  lemma HandleCoherent(m: Subsystem, stale: Stale, r: Request)
    requires Coherent(m, stale) && Ready(m) && r.cu < |m.l1|
    ensures var t := Handle(m, r);
            && Coherent(t.0, StaleAfter(m, stale, r))
            && FlatOf(t.0) == FlatHandle(FlatOf(m), r).0
            && (ReadsStale(m, stale, r) || t.1 == FlatHandle(FlatOf(m), r).1)
  {
    hide BankOk, LoadWord, Written;
    var a := WordOf(r.address);
    if !IsShared(a) {
      if r.write {
        StoreCoherent(m, stale, r.cu, a, r.data);
      } else {
        LoadCoherent(m, stale, r.cu, a);
      }
    }
  }

  // ----- Runs -----

  predicate InRange(n: nat, rs: seq<Request>) { forall i :: 0 <= i < |rs| ==> rs[i].cu < n }

  function Answers(m: Subsystem, rs: seq<Request>): seq<Word>
    requires Ready(m) && InRange(|m.l1|, rs)
    decreases |rs|
  {
    if rs == [] then []
    else
      var t := Handle(m, rs[0]);
      ReadyKept(m, rs[0]);
      [t.1] + Answers(t.0, rs[1..])
  }

  function FlatAnswers(f: Flat, rs: seq<Request>): seq<Word>
    requires InRange(|f.shared|, rs)
    decreases |rs|
  {
    if rs == [] then [] else [FlatHandle(f, rs[0]).1] + FlatAnswers(FlatHandle(f, rs[0]).0, rs[1..])
  }

  /** Two requests meet in one cell: a word of global memory, or of one unit's shared memory. */
  predicate SameCell(r: Request, s: Request) {
    WordOf(r.address) == WordOf(s.address) && (WordOf(r.address) < SHARED_WORDS ==> r.cu == s.cu)
  }

  /** The data of the last store to r's cell among the first k requests, or what the
      memory held. */
  function LastStored(f: Flat, rs: seq<Request>, k: nat, r: Request): Word
    requires k <= |rs| && r.cu < |f.shared|
    decreases k
  {
    if k == 0 then (if WordOf(r.address) < SHARED_WORDS then f.shared[r.cu](WordOf(r.address)) else f.global(WordOf(r.address)))
    else if rs[k - 1].write && SameCell(rs[k - 1], r) then rs[k - 1].data
    else LastStored(f, rs, k - 1, r)
  }

  /** Flat memory is memory: every load is answered with the last value stored to its cell. */
  lemma {:induction false} FlatIsLastStored(f: Flat, rs: seq<Request>, k: nat)
    requires InRange(|f.shared|, rs) && k < |rs| && !rs[k].write
    ensures k < |FlatAnswers(f, rs)| && FlatAnswers(f, rs)[k] == LastStored(f, rs, k, rs[k])
    decreases k
  {
    hide FlatHandle, LastStored;
    if k == 0 {
      HandleLoad(f, rs, rs[0]);
    } else {
      var g := FlatHandle(f, rs[0]).0;
      FlatShape(f, rs[0]);
      FlatIsLastStored(g, rs[1..], k - 1);
      LastStoredShift(f, rs, k, rs[k]);
    }
  }

  lemma HandleLoad(f: Flat, rs: seq<Request>, r: Request)
    requires r.cu < |f.shared| && !r.write
    ensures FlatHandle(f, r).1 == LastStored(f, rs, 0, r)
  {
  }

  lemma FlatShape(f: Flat, r: Request)
    requires r.cu < |f.shared|
    ensures |FlatHandle(f, r).0.shared| == |f.shared|
  {
  }

  // The first request made part of what the memory held.
  lemma {:induction false} LastStoredShift(f: Flat, rs: seq<Request>, k: nat, r: Request)
    requires 0 < k <= |rs| && rs[0].cu < |f.shared| && r.cu < |f.shared|
    ensures |FlatHandle(f, rs[0]).0.shared| == |f.shared|
    ensures LastStored(f, rs, k, r) == LastStored(FlatHandle(f, rs[0]).0, rs[1..], k - 1, r)
    decreases k
  {
    hide WordOf;
    if k > 1 {
      hide FlatHandle;
      FlatShape(f, rs[0]);
      LastStoredShift(f, rs, k - 1, r);
      assert rs[1..][k - 2] == rs[k - 1];
    }
  }

  lemma ReadyKept(m: Subsystem, r: Request)
    requires Ready(m) && r.cu < |m.l1|
    ensures Ready(Handle(m, r).0) && |Handle(m, r).0.l1| == |m.l1|
  {
    var a, l1 := WordOf(r.address), m.l1[r.cu];
    Slices(l1.sets, a);
    Slices(m.l2.sets, a);
  }

  /** All traffic comes from unit c. */
  predicate OnlyFrom(c: nat, rs: seq<Request>) { forall i :: 0 <= i < |rs| ==> rs[i].cu == c }

  lemma NothingStale(m: Subsystem, stale: Stale, r: Request)
    requires |stale| == |m.l1| && r.cu < |m.l1| && m.l1[r.cu].Shaped() && stale[r.cu] == {}
    ensures StaleAfter(m, stale, r)[r.cu] == {} && !ReadsStale(m, stale, r)
  {
  }

  function StaleThrough(m: Subsystem, stale: Stale, rs: seq<Request>): Stale
    requires Ready(m) && InRange(|m.l1|, rs) && |stale| == |m.l1|
    decreases |rs|
  {
    if rs == [] then stale
    else
      ReadyKept(m, rs[0]);
      StaleThrough(Handle(m, rs[0]).0, StaleAfter(m, stale, rs[0]), rs[1..])
  }

  /** No request of the run reads a stale word. */
  predicate Fresh(m: Subsystem, stale: Stale, rs: seq<Request>)
    requires Ready(m) && InRange(|m.l1|, rs) && |stale| == |m.l1|
    decreases |rs|
  {
    if rs == [] then true
    else
      ReadyKept(m, rs[0]);
      !ReadsStale(m, stale, rs[0]) && Fresh(Handle(m, rs[0]).0, StaleAfter(m, stale, rs[0]), rs[1..])
  }

  /** Any number of units sees flat memory, as long as no request reads a stale word. */
  lemma {:induction false} FreshIsFlat(m: Subsystem, stale: Stale, rs: seq<Request>)
    requires Coherent(m, stale) && Ready(m) && InRange(|m.l1|, rs) && |stale| == |m.l1| && Fresh(m, stale, rs)
    ensures |m.shared| == |m.l1| && Answers(m, rs) == FlatAnswers(FlatOf(m), rs)
    decreases |rs|
  {
    hide Coherent, Handle, FlatHandle, StaleAfter, ReadsStale;
    if rs != [] {
      var r := rs[0];
      HandleCoherent(m, stale, r);
      ReadyKept(m, r);
      StaleCount(m, stale, r);
      FreshIsFlat(Handle(m, r).0, StaleAfter(m, stale, r), rs[1..]);
    }
  }

  lemma StaleCount(m: Subsystem, stale: Stale, r: Request)
    requires |stale| == |m.l1| && r.cu < |m.l1| && m.l1[r.cu].Shaped()
    ensures |StaleAfter(m, stale, r)| == |stale|
  {
    hide IsShared, Hits;
  }

  /** A unit that is alone reads nothing stale. */
  lemma {:induction false} AloneIsFresh(m: Subsystem, stale: Stale, c: nat, rs: seq<Request>)
    requires Ready(m) && c < |m.l1| == |stale| && stale[c] == {} && OnlyFrom(c, rs)
    ensures Fresh(m, stale, rs) && |StaleThrough(m, stale, rs)| == |stale| && StaleThrough(m, stale, rs)[c] == {}
    decreases |rs|
  {
    hide Handle, StaleAfter, ReadsStale;
    if rs != [] {
      var r := rs[0];
      NothingStale(m, stale, r);
      StaleCount(m, stale, r);
      ReadyKept(m, r);
      AloneIsFresh(Handle(m, r).0, StaleAfter(m, stale, r), c, rs[1..]);
    }
  }

  /** One unit alone sees flat memory: every load returns the last value stored. */
  lemma AloneIsFlat(m: Subsystem, stale: Stale, c: nat, rs: seq<Request>)
    requires Coherent(m, stale) && Ready(m) && c < |m.l1| && stale[c] == {} && OnlyFrom(c, rs)
    ensures Answers(m, rs) == FlatAnswers(FlatOf(m), rs)
  {
    hide Coherent, Ready, Answers, FlatAnswers, Fresh, StaleThrough;
    CoherentShape(m, stale);
    AloneIsFresh(m, stale, c, rs);
    FreshIsFlat(m, stale, rs);
  }

  lemma CoherentShape(m: Subsystem, stale: Stale)
    requires Coherent(m, stale)
    ensures |stale| == |m.l1| == |m.shared| && forall c :: 0 <= c < |m.l1| ==> m.l1[c].Shaped()
  {
    hide Agrees;
  }

  /** After a reset nothing is resident, so nothing disagrees. */
  lemma ResetCoherent(m: Subsystem)
    requires |m.shared| == |m.l1| && m.l2.Shaped() && forall c :: 0 <= c < |m.l1| ==> m.l1[c].Shaped()
    ensures Coherent(m.(l1 := seq(|m.l1|, c requires 0 <= c < |m.l1| => m.l1[c].Reset()), l2 := m.l2.Reset()),
                     seq(|m.l1|, _ => {}))
  {
  }

  lemma LoadResides(m: Subsystem, stale: Stale, c: nat, a: nat)
    requires Coherent(m, stale) && Ready(m) && c < |m.l1| && a !in stale[c]
    ensures var l1 := LoadWord(m, c, a).0.l1;
            |l1| == |m.l1| && l1[c].Shaped() && l1[c].Lookup(a) < l1[c].ways && l1[c].WordAt(l1[c].Lookup(a), a) == m.global(a)
  {
    hide Agrees, BankOk;
    CoherentShape(m, stale);
    LoadCoherent(m, stale, c, a);
    var t := LoadWord(m, c, a).0;
    var after := if Hits(m, c, a) then stale else stale[c := Without(stale[c], a)];
    assert BankOk(t.l1[c], m.global, after[c]) && a !in after[c];
    FoundWord(m.l1[c], t.l1[c], m, stale[c], after[c], a);
    HitWord(t.l1[c], m.global, after[c], a);
  }

  // Either it was found, or its line has just been filled.
  lemma FoundWord(b: Bank, c: Bank, m: Subsystem, stale: set<nat>, after: set<nat>, a: nat)
    requires BankOk(b, m.global, stale) && BankOk(c, m.global, after)
    requires (b.Lookup(a) < b.ways && c == b) || exists line: seq<Word> :: |line| == WORDS_PER_LINE && c == b.FillLine(a, line)
    ensures c.Lookup(a) < c.ways
  {
    hide Agrees;
    Slices(b.sets, a);
    if !(b.Lookup(a) < b.ways && c == b) {
      var line: seq<Word> :| |line| == WORDS_PER_LINE && c == b.FillLine(a, line);
      assert c.Matches(b.victim(SetOf(b.sets, a)), a);
      LookupFinds(c, a);
    }
  }

  lemma HitWord(b: Bank, g: Words, stale: set<nat>, a: nat)
    requires BankOk(b, g, stale) && a !in stale && b.Lookup(a) < b.ways
    ensures b.WordAt(b.Lookup(a), a) == g(a)
  {
    hide Agrees;
    AgreesAt(b, g, stale, b.Lookup(a), a);
  }

  lemma OldValue(m: Subsystem, stale: Stale, c: nat, d: nat, a: nat, v: Word)
    requires Coherent(m, stale) && Ready(m) && c < |m.l1| && d < |m.l1| && c != d && !IsShared(a) && a !in stale[c]
    ensures var load, store := Request(c, 4 * a, false, 0), Request(d, 4 * a, true, v);
            InRange(|m.l1|, [load, store, load]) && Answers(m, [load, store, load]) == [m.global(a), 0, m.global(a)]
  {
    hide Coherent, Bank.Shaped, Bank.WordAt, Bank.LineAt, Bank.FillLine, GlobalLine, Written, LoadWord, Ready, Bank.Find, Bank.Lookup;
    var load, store := Request(c, 4 * a, false, 0), Request(d, 4 * a, true, v);
    assert WordOf(4 * a) == a;
    CoherentShape(m, stale);
    ReadyKept(m, load);
    HandleCoherent(m, stale, load);
    LoadResides(m, stale, c, a);
    var m1 := Handle(m, load).0;
    ReadyKept(m1, store);
    var m2 := Handle(m1, store).0;
    assert m2.l1[c] == m1.l1[c];
    HitAnswers(m2, c, a);
    ReadyKept(m2, load);
    assert Answers(m2, [load]) == [Handle(m2, load).1] + Answers(Handle(m2, load).0, []);
    assert Answers(m1, [store, load]) == [Handle(m1, store).1] + Answers(m2, [load]) by { assert [store, load][1..] == [load]; }
    assert [load, store, load][1..] == [store, load];
  }

  /** Two units do not see flat memory: after unit c has loaded a word and unit d
      stored it, c still loads the old value: not what flat memory answers, unless the
      value stored was the old one. */
  lemma StaleLoad(m: Subsystem, stale: Stale, c: nat, d: nat, a: nat, v: Word)
    requires Coherent(m, stale) && Ready(m) && c < |m.l1| && d < |m.l1| && c != d && !IsShared(a) && a !in stale[c]
    ensures var rs := [Request(c, 4 * a, false, 0), Request(d, 4 * a, true, v), Request(c, 4 * a, false, 0)];
            && InRange(|m.l1|, rs) && |m.shared| == |m.l1|
            && Answers(m, rs) == [m.global(a), 0, m.global(a)]
            && (Answers(m, rs) == FlatAnswers(FlatOf(m), rs) <==> v == m.global(a))
  {
    hide Coherent, Answers, FlatAnswers, Bank.Shaped;
    CoherentShape(m, stale);
    OldValue(m, stale, c, d, a, v);
    FlatStoreLoad(FlatOf(m), c, d, a, v);
  }

  lemma FlatStoreLoad(f: Flat, c: nat, d: nat, a: nat, v: Word)
    requires c < |f.shared| && d < |f.shared| && !IsShared(a)
    ensures var load, store := Request(c, 4 * a, false, 0), Request(d, 4 * a, true, v);
            InRange(|f.shared|, [load, store, load]) && FlatAnswers(f, [load, store, load]) == [f.global(a), 0, v]
  {
    var load, store := Request(c, 4 * a, false, 0), Request(d, 4 * a, true, v);
    assert WordOf(4 * a) == a;
    var g := FlatHandle(f, store).0;
    assert FlatHandle(f, load) == (f, f.global(a)) && FlatHandle(g, load).1 == v;
    assert [load, store, load][1..] == [store, load] && [store, load][1..] == [load] && [load][1..] == [];
    assert FlatAnswers(g, [load]) == [v] + FlatAnswers(g, []);
    assert FlatAnswers(f, [store, load]) == [0] + FlatAnswers(g, [load]);
  }

  lemma HitAnswers(m: Subsystem, c: nat, a: nat)
    requires Ready(m) && c < |m.l1| && !IsShared(a) && m.l1[c].Lookup(a) < m.l1[c].ways
    ensures Handle(m, Request(c, 4 * a, false, 0)).1 == m.l1[c].WordAt(m.l1[c].Lookup(a), a)
  {
    assert WordOf(4 * a) == a;
  }
}

// The cache banks and the memory subsystem as arrays updated in place
// (hls/src/memory/cache_bank.h, memory_pipeline.h), and the round-robin arbiter
// in front of them (hls/src/scheduler/mem_arbiter.h).

module MemoryUnits {
  import opened Isa
  import opened Cache
  import opened Memory
  import opened Numbers

  /** `SetAssocCache`: tag, valid and data arrays by way and set. */
  class SetAssocCache {
    const ways: nat
    const sets: nat
    const tag: array2<nat>
    const valid: array2<bool>
    const data: array3<Word>
    const nextVictim: array<nat>
    ghost const Repr: set<object>

    constructor (ways: nat, sets: nat)
      requires 0 < ways && 0 < sets
      ensures this.ways == ways && this.sets == sets && Valid() && fresh(Repr)
      ensures forall w, s :: 0 <= w < ways && 0 <= s < sets ==> !valid[w, s]
    {
      this.ways, this.sets := ways, sets;
      tag := new nat[ways, sets]((w, s) => 0);
      valid := new bool[ways, sets]((w, s) => false);
      data := new Word[ways, sets, WORDS_PER_LINE]((w, s, i) => 0);
      nextVictim := new nat[sets](s => 0);
      Repr := {tag, valid, data, nextVictim};
    }

    ghost predicate Valid()
      reads nextVictim
    {
      && 0 < ways && 0 < sets && Repr == {tag, valid, data, nextVictim}
      && tag.Length0 == valid.Length0 == data.Length0 == ways
      && tag.Length1 == valid.Length1 == data.Length1 == nextVictim.Length == sets && data.Length2 == WORDS_PER_LINE
      && forall s :: 0 <= s < sets ==> nextVictim[s] < ways
    }

    ghost predicate LineShows(w: nat, s: nat, line: Line)
      requires Valid() && w < ways && s < sets
      reads Repr
    {
      && line.valid == valid[w, s] && line.tag == tag[w, s] && |line.words| == WORDS_PER_LINE
      && forall i :: 0 <= i < WORDS_PER_LINE ==> line.words[i] == data[w, s, i]
    }

    /** The bank `b` is what the arrays hold. */
    ghost predicate Shows(b: Bank)
      reads Repr, nextVictim
    {
      && Valid() && b.ways == ways && b.sets == sets
      && (forall s :: 0 <= s < sets ==> b.victim(s) == nextVictim[s])
      && forall w, s :: 0 <= w < ways && 0 <= s < sets ==> LineShows(w, s, b.entry(w, s))
    }

    method Reset(ghost b: Bank)
      requires Shows(b)
      modifies valid, nextVictim
      ensures Shows(b.Reset())
    {
      for w := 0 to ways
        modifies valid
        invariant forall v, s :: 0 <= v < ways && 0 <= s < sets ==> valid[v, s] == (v >= w && b.entry(v, s).valid)
      {
        for s := 0 to sets
          modifies valid
          invariant forall v, t :: 0 <= v < ways && 0 <= t < sets ==>
            valid[v, t] == ((v > w || (v == w && t >= s)) && b.entry(v, t).valid)
        {
          valid[w, s] := false;
        }
      }
      for s := 0 to sets
        modifies nextVictim
        invariant Valid() && forall t :: 0 <= t < s ==> nextVictim[t] == 0
      {
        nextVictim[s] := 0;
      }
    }

    /** The last matching way, or `ways`. */
    method Lookup(a: nat, ghost b: Bank) returns (way: nat)
      requires Shows(b)
      ensures way == b.Lookup(a)
    {
      Slices(sets, a);
      way := ways;
      for w := 0 to ways
        invariant way == b.Find(a, w)
      {
        assert LineShows(w, SetOf(sets, a), b.entry(w, SetOf(sets, a)));
        if valid[w, SetOf(sets, a)] && tag[w, SetOf(sets, a)] == TagOf(sets, a) {
          way := w;
        }
      }
    }

    method Read(w: nat, a: nat, ghost b: Bank) returns (word: Word)
      requires Shows(b) && w < ways
      ensures b.Shaped() && word == b.WordAt(w, a)
    {
      Slices(sets, a);
      assert LineShows(w, SetOf(sets, a), b.entry(w, SetOf(sets, a)));
      word := data[w, SetOf(sets, a), IndexOf(a)];
    }

    method ReadLine(w: nat, a: nat, out: array<Word>, ghost b: Bank)
      requires Shows(b) && w < ways && out.Length == WORDS_PER_LINE && out !in Repr
      modifies out
      ensures out[..] == b.LineAt(w, a)
    {
      Slices(sets, a);
      ghost var s := SetOf(sets, a);
      assert LineShows(w, s, b.entry(w, s));
      for i := 0 to WORDS_PER_LINE
        invariant forall k :: 0 <= k < i ==> out[k] == data[w, s, k]
      {
        out[i] := data[w, SetOf(sets, a), i];
      }
    }

    method WriteWord(w: nat, a: nat, value: Word, ghost b: Bank)
      requires Shows(b) && w < ways
      modifies data
      ensures b.Shaped() && Shows(b.WriteWord(w, a, value))
    {
      Slices(sets, a);
      data[w, SetOf(sets, a), IndexOf(a)] := value;
      ghost var c := b.WriteWord(w, a, value);
      forall v, s | 0 <= v < ways && 0 <= s < sets ensures LineShows(v, s, c.entry(v, s)) {
        assert old(LineShows(v, s, b.entry(v, s)));
      }
    }

    method FillLine(a: nat, line: array<Word>, ghost b: Bank)
      requires Shows(b) && line.Length == WORDS_PER_LINE && line !in Repr
      modifies data, tag, valid, nextVictim
      ensures Shows(b.FillLine(a, line[..]))
    {
      Slices(sets, a);
      var set_, tag_ := SetOf(sets, a), TagOf(sets, a);
      var victim := nextVictim[set_];
      for i := 0 to WORDS_PER_LINE
        modifies data
        invariant forall v, s, k :: 0 <= v < ways && 0 <= s < sets && 0 <= k < WORDS_PER_LINE ==>
          data[v, s, k] == if v == victim && s == set_ && k < i then line[k] else old(data[v, s, k])
      {
        data[victim, set_, i] := line[i];
      }
      tag[victim, set_] := tag_;
      valid[victim, set_] := true;
      nextVictim[set_] := if victim == ways - 1 then 0 else victim + 1;
      ghost var c := b.FillLine(a, line[..]);
      forall v, s | 0 <= v < ways && 0 <= s < sets ensures LineShows(v, s, c.entry(v, s)) {
        assert old(LineShows(v, s, b.entry(v, s)));
      }
    }
  }

  /** `MemorySubsystem`: a cache per unit, one behind them, on-chip shared memory. */
  class MemorySubsystem {
    const l1Caches: seq<SetAssocCache>
    const l2Cache: SetAssocCache
    const sharedMem: array2<Word>
    const globalMem: array<Word>
    ghost const Repr: set<object>

    constructor (l1Caches: seq<SetAssocCache>, l2Cache: SetAssocCache, sharedMem: array2<Word>, globalMem: array<Word>)
      ensures this.l1Caches == l1Caches && this.l2Cache == l2Cache && this.sharedMem == sharedMem && this.globalMem == globalMem
      ensures Repr == (set c, o | 0 <= c < |l1Caches| && o in l1Caches[c].Repr :: o) + l2Cache.Repr + {sharedMem, globalMem}
    {
      this.l1Caches, this.l2Cache, this.sharedMem, this.globalMem := l1Caches, l2Cache, sharedMem, globalMem;
      Repr := (set c, o | 0 <= c < |l1Caches| && o in l1Caches[c].Repr :: o) + l2Cache.Repr + {sharedMem, globalMem};
    }

    /** No two parts share an array; external memory is made of whole lines. */
    ghost predicate Separate() {
      && (forall c :: 0 <= c < |l1Caches| ==> l1Caches[c].Repr <= Repr && l1Caches[c].nextVictim in l1Caches[c].Repr)
      && l2Cache.Repr <= Repr && l2Cache.nextVictim in l2Cache.Repr && sharedMem in Repr && globalMem in Repr
      && (forall c, d :: 0 <= c < d < |l1Caches| ==> l1Caches[c].Repr !! l1Caches[d].Repr)
      && (forall c :: 0 <= c < |l1Caches| ==> l1Caches[c].Repr !! l2Cache.Repr && sharedMem !in l1Caches[c].Repr && globalMem !in l1Caches[c].Repr)
      && sharedMem !in l2Cache.Repr && globalMem !in l2Cache.Repr
      && sharedMem.Length0 == |l1Caches| && sharedMem.Length1 == SHARED_WORDS
      && globalMem.Length % WORDS_PER_LINE == 0
    }

    ghost predicate CachesShow(m: Subsystem)
      requires Separate()
      reads Repr
    {
      && |m.l1| == |l1Caches|
      && (forall c :: 0 <= c < |l1Caches| ==> l1Caches[c].Shows(m.l1[c]))
      && l2Cache.Shows(m.l2)
    }

    /** The subsystem `m` is what the arrays hold. */
    ghost predicate Shows(m: Subsystem)
      requires Separate()
      reads Repr
    {
      && CachesShow(m) && |m.shared| == |l1Caches|
      && (forall c, a :: 0 <= c < |l1Caches| && 0 <= a < SHARED_WORDS ==> m.shared[c](a) == sharedMem[c, a])
      && forall a :: 0 <= a < globalMem.Length ==> m.global(a) == globalMem[a]
    }

    method FetchLine(a: nat, ghost m: Subsystem) returns (line: array<Word>)
      requires Separate() && Shows(m) && a < globalMem.Length
      ensures fresh(line) && line.Length == WORDS_PER_LINE && line[..] == GlobalLine(m.global, a)
    {
      hide CachesShow;
      line := new Word[WORDS_PER_LINE];
      for i := 0 to WORDS_PER_LINE
        modifies line
        invariant forall k :: 0 <= k < i ==> line[k] == m.global(LineOf(a) * WORDS_PER_LINE + k)
      {
        line[i] := globalMem[LineOf(a) * WORDS_PER_LINE + i];
      }
    }

    method FillL1(c: nat, a: nat, line: array<Word>, ghost m: Subsystem)
      requires Separate() && Shows(m) && c < |l1Caches| && line.Length == WORDS_PER_LINE && line !in Repr
      modifies l1Caches[c].Repr
      ensures m.l1[c].sets > 0 && Shows(m.(l1 := m.l1[c := m.l1[c].FillLine(a, line[..])]))
    {
      hide Bank.FillLine;
      l1Caches[c].FillLine(a, line, m.l1[c]);
    }

    method FillL2(a: nat, line: array<Word>, ghost m: Subsystem)
      requires Separate() && Shows(m) && line.Length == WORDS_PER_LINE && line !in Repr
      modifies l2Cache.Repr
      ensures m.l2.sets > 0 && Shows(m.(l2 := m.l2.FillLine(a, line[..])))
    {
      hide Bank.FillLine;
      l2Cache.FillLine(a, line, m.l2);
    }

    method LoadWord(c: nat, a: nat, ghost m: Subsystem) returns (word: Word)
      requires Separate() && Shows(m) && Ready(m) && c < |l1Caches| && a < globalMem.Length
      modifies l1Caches[c].Repr, l2Cache.Repr
      ensures var t := Memory.LoadWord(m, c, a); Shows(t.0) && word == t.1
    {
      hide Bank.FillLine, Bank.WordAt, Bank.LineAt, Bank.Lookup, Bank.Find, Shows, GlobalLine;
      hide CachesShow;
      CachesOf(c, m);
      var w := l1Caches[c].Lookup(a, m.l1[c]);
      if w < l1Caches[c].ways {
        word := l1Caches[c].Read(w, a, m.l1[c]);
        return;
      }
      var v := l2Cache.Lookup(a, m.l2);
      if v < l2Cache.ways {
        var copy := new Word[WORDS_PER_LINE];
        l2Cache.ReadLine(v, a, copy, m.l2);
        word := l2Cache.Read(v, a, m.l2);
        FillL1(c, a, copy, m);
        return;
      }
      var line := FetchLine(a, m);
      word := line[IndexOf(a)];
      FillL2(a, line, m);
      FillL1(c, a, line, m.(l2 := m.l2.FillLine(a, line[..])));
    }

    lemma CachesOf(c: nat, m: Subsystem)
      requires Separate() && Shows(m) && c < |l1Caches|
      ensures |m.l1| == |l1Caches| && l1Caches[c].Shows(m.l1[c]) && l2Cache.Shows(m.l2)
    {
    }

    // The bank takes the word only where the line is resident.
    method Update(cache: SetAssocCache, a: nat, value: Word, ghost b: Bank)
      requires cache.Shows(b) && b.Shaped()
      modifies cache.data
      ensures cache.Shows(Written(b, a, value))
    {
      hide Bank.WriteWord, Bank.Find;
      var w := cache.Lookup(a, b);
      if w < cache.ways {
        cache.WriteWord(w, a, value, b);
      }
    }

    method UpdateL1(c: nat, a: nat, value: Word, ghost m: Subsystem)
      requires Separate() && Shows(m) && Ready(m) && c < |l1Caches|
      modifies l1Caches[c].Repr
      ensures Shows(m.(l1 := m.l1[c := Written(m.l1[c], a, value)]))
    {
      hide Written;
      assert l1Caches[c].data in l1Caches[c].Repr;
      Update(l1Caches[c], a, value, m.l1[c]);
    }

    method UpdateL2(a: nat, value: Word, ghost m: Subsystem)
      requires Separate() && Shows(m) && Ready(m)
      modifies l2Cache.Repr
      ensures Shows(m.(l2 := Written(m.l2, a, value)))
    {
      hide Written;
      Update(l2Cache, a, value, m.l2);
    }

    method WriteThrough(a: nat, value: Word, ghost m: Subsystem)
      requires Separate() && Shows(m) && a < globalMem.Length
      modifies globalMem
      ensures Shows(m.(global := Put(m.global, a, value)))
    {
      globalMem[a] := value;
    }

    method StoreWord(c: nat, a: nat, value: Word, ghost m: Subsystem)
      requires Separate() && Shows(m) && Ready(m) && c < |l1Caches| && a < globalMem.Length
      modifies l1Caches[c].Repr, l2Cache.Repr, globalMem
      ensures |m.l1| == |l1Caches| && Shows(Memory.StoreWord(m, c, a, value))
    {
      hide Written, Shows, Put;
      CachesOf(c, m);
      WrittenReady(m, c, a, value);
      ghost var m1 := m.(l1 := m.l1[c := Written(m.l1[c], a, value)]);
      UpdateL1(c, a, value, m);
      UpdateL2(a, value, m1);
      WriteThrough(a, value, m1.(l2 := Written(m1.l2, a, value)));
    }

    lemma WrittenReady(m: Subsystem, c: nat, a: nat, value: Word)
      requires Ready(m) && c < |m.l1|
      ensures Ready(m.(l1 := m.l1[c := Written(m.l1[c], a, value)]))
    {
      Slices(m.l1[c].sets, a);
    }

    method StoreShared(c: nat, a: nat, value: Word, ghost m: Subsystem)
      requires Separate() && Shows(m) && c < |l1Caches| && a < SHARED_WORDS
      modifies sharedMem
      ensures |m.shared| == |l1Caches| && Shows(m.(shared := m.shared[c := Put(m.shared[c], a, value)]))
    {
      sharedMem[c, a] := value;
    }

    /** `handleRequest`: inside the shared window, or in external memory. */
    method HandleRequest(r: Request, ghost m: Subsystem) returns (word: Word)
      requires Separate() && Shows(m) && Ready(m) && r.cu < |l1Caches|
      requires IsShared(WordOf(r.address)) || WordOf(r.address) < globalMem.Length
      modifies Repr
      ensures |m.l1| == |l1Caches|
      ensures var t := Handle(m, r); Shows(t.0) && word == t.1
    {
      hide CachesShow, Memory.LoadWord, Memory.StoreWord, Put;
      CachesOf(r.cu, m);
      var a := WordOf(r.address);
      if a < SHARED_WORDS {
        if r.write {
          StoreShared(r.cu, a, r.data, m);
          return 0;
        }
        return sharedMem[r.cu, a];
      }
      if r.write {
        StoreWord(r.cu, a, r.data, m);
        return 0;
      }
      word := LoadWord(r.cu, a, m);
    }
  }

  // ----- The arbiter -----

  /** The first unit from `next` on, wrapping round, whose stream is not empty; n if none. */
  function Pick(pending: seq<bool>, next: nat, i: nat): (c: nat)
    requires next < |pending| && i <= |pending|
    ensures c <= |pending| && (c < |pending| ==> pending[c])
    decreases |pending| - i
  {
    if i == |pending| then |pending|
    else if pending[(next + i) % |pending|] then (next + i) % |pending|
    else Pick(pending, next, i + 1)
  }

  function Next(n: nat, p: nat): nat
    requires n > 0
  {
    (p + 1) % n
  }

  lemma NextIs(n: nat, p: nat)
    requires p < n
    ensures Next(n, p) == if p + 1 == n then 0 else p + 1
  {
  }

  /** Grants before unit c's turn, at most, when the pointer is at `next`. */
  function Turns(n: nat, next: nat, c: nat): nat
    requires next < n && c < n
  {
    if next <= c then c - next else c + n - next
  }

  lemma {:induction false} PickFrom(pending: seq<bool>, next: nat, i: nat, c: nat)
    requires next < |pending| && c < |pending| && pending[c] && i <= Turns(|pending|, next, c)
    ensures var p := Pick(pending, next, i);
            p < |pending| && Turns(|pending|, next, p) <= Turns(|pending|, next, c)
    decreases |pending| - i
  {
    var n, k := |pending|, Turns(|pending|, next, c);
    RoundRobin(n, next, i);
    RoundRobin(n, next, k);
    if !pending[(next + i) % n] {
      PickFrom(pending, next, i + 1, c);
    }
  }

  lemma RoundRobin(n: nat, next: nat, i: nat)
    requires next < n && i < n
    ensures var c := (next + i) % n; c < n && Turns(n, next, c) == i
    ensures (next + i) % n == if next + i < n then next + i else next + i - n
  {
    var x := next + i;
    if x < n {
      Placement(n, x, 0, x);
    } else {
      Placement(n, x - n, 1, x);
    }
  }

  /** Any other grant brings a pending unit's turn strictly closer. */
  lemma GrantsComeCloser(pending: seq<bool>, next: nat, c: nat)
    requires next < |pending| && c < |pending| && pending[c]
    ensures var n := |pending|; var p := Pick(pending, next, 0);
            p < n && (p == c || Turns(n, Next(n, p), c) < Turns(n, next, c))
  {
    hide Pick, Next;
    PickFrom(pending, next, 0, c);
    NextIs(|pending|, Pick(pending, next, 0));
  }

  /** The units granted in turn while each pass sees the streams `passes[k]`. */
  function Grants(passes: seq<seq<bool>>, n: nat, next: nat): seq<nat>
    requires next < n && forall k :: 0 <= k < |passes| ==> |passes[k]| == n
    decreases |passes|
  {
    if passes == [] then []
    else
      var p := Pick(passes[0], next, 0);
      if p == n then Grants(passes[1..], n, next) else [p] + Grants(passes[1..], n, Next(n, p))
  }

  /** Unit c is among the first `limit` + 1 grants. */
  predicate Served(grants: seq<nat>, c: nat, limit: nat) {
    exists k :: 0 <= k < |grants| && k <= limit && grants[k] == c
  }

  /** A unit whose request stays pending is served after at most n - 1 other grants. */
  lemma {:induction false} FairGrants(passes: seq<seq<bool>>, n: nat, next: nat, c: nat)
    requires next < n && c < n && forall k :: 0 <= k < |passes| ==> |passes[k]| == n && passes[k][c]
    requires |passes| > Turns(n, next, c)
    ensures Served(Grants(passes, n, next), c, Turns(n, next, c))
    decreases |passes|
  {
    hide Pick, Next;
    var p := Pick(passes[0], next, 0);
    GrantsComeCloser(passes[0], next, c);
    NextIs(n, p);
    var g := Grants(passes, n, next);
    if p == c {
      assert g[0] == c;
    } else {
      FairGrants(passes[1..], n, Next(n, p), c);
      var h := Grants(passes[1..], n, Next(n, p));
      assert g == [p] + h;
      ServedLater(p, h, c, Turns(n, Next(n, p), c), Turns(n, next, c));
    }
  }

  lemma ServedLater(p: nat, grants: seq<nat>, c: nat, limit: nat, more: nat)
    requires Served(grants, c, limit) && limit < more
    ensures Served([p] + grants, c, more)
  {
    var k :| 0 <= k < |grants| && k <= limit && grants[k] == c;
    assert ([p] + grants)[k + 1] == c;
  }

  /** `MemArbiter`: a pointer and the request streams it scans. */
  class MemArbiter {
    const requests: array<seq<Request>>
    var nextCu: nat
    var requestOut: seq<Request>

    constructor (n: nat)
      requires n > 0
      ensures fresh(requests) && requests.Length == n && nextCu == 0 && requestOut == []
      ensures forall c :: 0 <= c < n ==> requests[c] == []
    {
      requests := new seq<Request>[n](_ => []);
      nextCu, requestOut := 0, [];
    }

    ghost function Pending(): seq<bool>
      reads requests
    {
      seq(requests.Length, c requires 0 <= c < requests.Length reads requests => requests[c] != [])
    }

    /** One step: the next pending request is forwarded untouched, and the pointer moves past its unit. */
    method ArbitrateOnce() returns (granted: bool)
      requires nextCu < requests.Length
      modifies this`nextCu, this`requestOut, requests
      ensures granted == (Pick(old(Pending()), old(nextCu), 0) < requests.Length)
      ensures var p := Pick(old(Pending()), old(nextCu), 0);
              granted ==> requestOut == old(requestOut) + [old(requests[p])[0]] && nextCu == Next(requests.Length, p)
                          && requests[..] == old(requests[..])[p := old(requests[p])[1..]]
      ensures !granted ==> requestOut == old(requestOut) && nextCu == old(nextCu) && requests[..] == old(requests[..])
    {
      var n := requests.Length;
      for i := 0 to n
        invariant nextCu == old(nextCu) && requestOut == old(requestOut) && requests[..] == old(requests[..])
        invariant Pick(old(Pending()), old(nextCu), 0) == Pick(old(Pending()), old(nextCu), i)
      {
        var idx := (nextCu + i) % n;
        assert requests[idx] == old(requests[idx]) by { assert requests[..][idx] == old(requests[..])[idx]; }
        if requests[idx] != [] {
          requestOut := requestOut + [requests[idx][0]];
          requests[idx] := requests[idx][1..];
          nextCu := Next(n, idx);
          return true;
        }
      }
      return false;
    }
  }
}

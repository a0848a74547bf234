// The set-associative cache bank (hls/src/memory/cache_bank.h) on values:
// lookup, word write and round-robin line fill, over word addresses.

module Cache {
  import opened Isa
  import opened Numbers

  const WORDS_PER_LINE := 32

  // ----- Address slicing: bit ranges of power-of-two sizes -----

  function IndexOf(a: nat): nat { a % WORDS_PER_LINE }
  function LineOf(a: nat): nat { a / WORDS_PER_LINE }
  function SetOf(sets: nat, a: nat): nat requires sets > 0 { LineOf(a) % sets }
  function TagOf(sets: nat, a: nat): nat requires sets > 0 { LineOf(a) / sets }

  /** The word address a tag, a set and a word index stand for. */
  function AddressOf(sets: nat, tag: nat, s: nat, i: nat): nat { (tag * sets + s) * WORDS_PER_LINE + i }

  lemma Divides(d: nat, q: nat, r: nat)
    requires r < d
    ensures (q * d + r) / d == q && (q * d + r) % d == r
  {
    Placement(d, r, q, q * d + r);
  }

  /** Slicing an address and putting it together again are inverse. */
  lemma Slices(sets: nat, a: nat)
    requires sets > 0
    ensures SetOf(sets, a) < sets && IndexOf(a) < WORDS_PER_LINE
    ensures AddressOf(sets, TagOf(sets, a), SetOf(sets, a), IndexOf(a)) == a
  {
    var line := LineOf(a);
    assert line == line / sets * sets + line % sets;
  }

  lemma Assembled(sets: nat, tag: nat, s: nat, i: nat)
    requires s < sets && i < WORDS_PER_LINE
    ensures var a := AddressOf(sets, tag, s, i);
            TagOf(sets, a) == tag && SetOf(sets, a) == s && IndexOf(a) == i && LineOf(a) == tag * sets + s
  {
    var line := tag * sets + s;
    Divides(WORDS_PER_LINE, line, i);
    Divides(sets, tag, s);
  }

  // ----- The bank -----

  datatype Line = Line(valid: bool, tag: nat, words: seq<Word>)

  /** `entry(w, s)` is the line in way w of set s, `victim(s)` the way filled next. */
  datatype Bank = Bank(ways: nat, sets: nat, entry: (nat, nat) -> Line, victim: nat -> nat)
  {
    predicate Shaped() {
      && 0 < ways && 0 < sets
      && (forall s :: 0 <= s < sets ==> victim(s) < ways)
      && forall w, s :: 0 <= w < ways && 0 <= s < sets ==> |entry(w, s).words| == WORDS_PER_LINE
    }

    predicate Matches(w: nat, a: nat)
      requires sets > 0
    {
      entry(w, SetOf(sets, a)).valid && entry(w, SetOf(sets, a)).tag == TagOf(sets, a)
    }

    predicate SameTag(v: nat, w: nat, s: nat) {
      entry(v, s).valid && entry(w, s).valid && entry(v, s).tag == entry(w, s).tag
    }

    /** No set holds one tag twice. */
    predicate NoTagTwice() {
      forall v, w, s :: 0 <= v < ways && 0 <= w < ways && 0 <= s < sets && SameTag(v, w, s) ==> v == w
    }

    /** `lookup`: ways are compared in order, the last match counts; `ways` if none. */
    function Find(a: nat, k: nat): (w: nat)
      requires sets > 0 && k <= ways
      ensures (w < k && Matches(w, a)) || w == ways
      ensures w == ways ==> forall v :: 0 <= v < k ==> !Matches(v, a)
    {
      if k == 0 then ways else if Matches(k - 1, a) then k - 1 else Find(a, k - 1)
    }

    function Lookup(a: nat): nat
      requires sets > 0
    {
      Find(a, ways)
    }

    predicate Resident(a: nat)
      requires sets > 0
    {
      exists w :: 0 <= w < ways && Matches(w, a)
    }

    function WordAt(w: nat, a: nat): Word
      requires Shaped() && w < ways
    {
      Slices(sets, a);
      entry(w, SetOf(sets, a)).words[IndexOf(a)]
    }

    function LineAt(w: nat, a: nat): seq<Word>
      requires sets > 0
    {
      entry(w, SetOf(sets, a)).words
    }

    function WriteWord(w: nat, a: nat, value: Word): Bank
      requires Shaped() && w < ways
    {
      Slices(sets, a);
      var line := entry(w, SetOf(sets, a));
      var written := line.(words := line.words[IndexOf(a) := value]);
      this.(entry := (v: nat, s: nat) => if v == w && s == SetOf(sets, a) then written else entry(v, s))
    }

    function FillLine(a: nat, words: seq<Word>): Bank
      requires sets > 0
    {
      var set_, tag := SetOf(sets, a), TagOf(sets, a);
      var w := victim(set_);
      this.(entry := (v: nat, s: nat) => if v == w && s == set_ then Line(true, tag, words) else entry(v, s),
            victim := (s: nat) => if s == set_ then (if w + 1 == ways then 0 else w + 1) else victim(s))
    }

    function Reset(): Bank {
      this.(entry := (v: nat, s: nat) => entry(v, s).(valid := false), victim := (s: nat) => 0)
    }
  }

  // ----- What each operation keeps -----

  lemma UniqueMatch(b: Bank, a: nat, v: nat, w: nat)
    requires b.Shaped() && b.NoTagTwice() && v < b.ways && w < b.ways && b.Matches(v, a) && b.Matches(w, a)
    ensures v == w
  {
    Slices(b.sets, a);
    assert b.SameTag(v, w, SetOf(b.sets, a));
  }

  lemma WriteKeeps(b: Bank, w: nat, a: nat, value: Word)
    requires b.Shaped() && b.NoTagTwice() && w < b.ways
    ensures b.WriteWord(w, a, value).Shaped() && b.WriteWord(w, a, value).NoTagTwice()
    ensures forall x: nat :: b.WriteWord(w, a, value).Resident(x) == b.Resident(x)
  {
    var c := b.WriteWord(w, a, value);
    assert forall v, u, s: nat :: c.SameTag(v, u, s) ==> b.SameTag(v, u, s);
    forall x: nat ensures c.Resident(x) == b.Resident(x) {
      assert forall v: nat :: c.Matches(v, x) == b.Matches(v, x);
    }
  }

  /** A line is only filled when it is not resident: then no tag appears twice. */
  lemma FillKeeps(b: Bank, a: nat, words: seq<Word>)
    requires b.Shaped() && b.NoTagTwice() && !b.Resident(a) && |words| == WORDS_PER_LINE
    ensures b.FillLine(a, words).Shaped() && b.FillLine(a, words).NoTagTwice() && b.FillLine(a, words).Resident(a)
  {
    var c, set_ := b.FillLine(a, words), SetOf(b.sets, a);
    Slices(b.sets, a);
    assert c.Matches(b.victim(set_), a);
    forall v, w, s | 0 <= v < c.ways && 0 <= w < c.ways && 0 <= s < c.sets && c.SameTag(v, w, s) ensures v == w {
      assert s == set_ ==> !b.Matches(v, a) && !b.Matches(w, a);
      assert !(s == set_ && (v == b.victim(s) || w == b.victim(s))) ==> b.SameTag(v, w, s);
    }
  }

  /** In a bank without double tags, lookup finds the line exactly when it is resident. */
  lemma LookupFinds(b: Bank, a: nat)
    requires b.Shaped() && b.NoTagTwice()
    ensures b.Lookup(a) < b.ways <==> b.Resident(a)
    ensures forall w :: 0 <= w < b.ways && b.Matches(w, a) ==> w == b.Lookup(a)
  {
    forall w | 0 <= w < b.ways && b.Matches(w, a) ensures w == b.Lookup(a) {
      UniqueMatch(b, a, w, b.Lookup(a));
    }
  }

  /** The state after filling several lines in turn. */
  function Fills(b: Bank, as_: seq<nat>, words: seq<Word>): Bank
    requires b.sets > 0
    decreases |as_|
  {
    if as_ == [] then b else Fills(b.FillLine(as_[0], words), as_[1..], words)
  }

  /** How many fills of its set way w is away from being the victim. */
  function Distance(b: Bank, s: nat, w: nat): int {
    if b.victim(s) <= w then w - b.victim(s) else w + b.ways - b.victim(s)
  }

  lemma FillOther(b: Bank, a: nat, x: nat, words: seq<Word>)
    requires b.Shaped() && |words| == WORDS_PER_LINE && !b.Resident(a)
    requires SetOf(b.sets, x) == SetOf(b.sets, a) && LineOf(x) != LineOf(a)
    ensures b.FillLine(x, words).Shaped() && !b.FillLine(x, words).Resident(a)
  {
    Slices(b.sets, a);
    var c := b.FillLine(x, words);
    forall w | 0 <= w < b.ways ensures !c.Matches(w, a) {
      assert !b.Matches(w, a);
    }
  }

  lemma {:induction false} SurvivesWhileDistant(b: Bank, a: nat, w: nat, xs: seq<nat>, words: seq<Word>)
    requires b.Shaped() && |words| == WORDS_PER_LINE && w < b.ways && b.Matches(w, a)
    requires forall v :: 0 <= v < b.ways && b.Matches(v, a) ==> v == w
    requires forall i :: 0 <= i < |xs| ==> SetOf(b.sets, xs[i]) == SetOf(b.sets, a) && LineOf(xs[i]) != LineOf(a)
    ensures Fills(b, xs, words).sets == b.sets
    ensures Fills(b, xs, words).Resident(a) <==> |xs| <= Distance(b, SetOf(b.sets, a), w)
    decreases |xs|
  {
    if xs != [] {
      var c := b.FillLine(xs[0], words);
      OnlyMatch(b, a, xs[0], w, words);
      if Distance(b, SetOf(b.sets, a), w) == 0 {
        StaysOut(c, a, xs[1..], words);
      } else {
        SurvivesWhileDistant(c, a, w, xs[1..], words);
      }
    }
  }

  // Filling another line makes no new match.
  lemma OnlyMatch(b: Bank, a: nat, x: nat, w: nat, words: seq<Word>)
    requires b.Shaped() && |words| == WORDS_PER_LINE
    requires forall v :: 0 <= v < b.ways && b.Matches(v, a) ==> v == w
    requires SetOf(b.sets, x) == SetOf(b.sets, a) && LineOf(x) != LineOf(a)
    ensures forall v :: 0 <= v < b.ways && b.FillLine(x, words).Matches(v, a) ==> v == w
  {
    forall v | 0 <= v < b.ways && b.FillLine(x, words).Matches(v, a) ensures v == w {
      assert b.Matches(v, a);
    }
  }

  lemma {:induction false} StaysOut(b: Bank, a: nat, xs: seq<nat>, words: seq<Word>)
    requires b.Shaped() && |words| == WORDS_PER_LINE && !b.Resident(a)
    requires forall i :: 0 <= i < |xs| ==> SetOf(b.sets, xs[i]) == SetOf(b.sets, a) && LineOf(xs[i]) != LineOf(a)
    ensures Fills(b, xs, words).sets == b.sets && !Fills(b, xs, words).Resident(a)
    decreases |xs|
  {
    if xs != [] {
      FillOther(b, a, xs[0], words);
      StaysOut(b.FillLine(xs[0], words), a, xs[1..], words);
    }
  }

  /** A filled line survives exactly ways - 1 further fills of its set. */
  lemma FilledLineSurvives(b: Bank, a: nat, xs: seq<nat>, words: seq<Word>)
    requires b.Shaped() && b.NoTagTwice() && !b.Resident(a) && |words| == WORDS_PER_LINE
    requires forall i :: 0 <= i < |xs| ==> SetOf(b.sets, xs[i]) == SetOf(b.sets, a) && LineOf(xs[i]) != LineOf(a)
    ensures var c := Fills(b.FillLine(a, words), xs, words);
            c.sets > 0 && (c.Resident(a) <==> |xs| < b.ways)
  {
    FillKeeps(b, a, words);
    Slices(b.sets, a);
    var c, w := b.FillLine(a, words), b.victim(SetOf(b.sets, a));
    assert c.Matches(w, a);
    forall v | 0 <= v < c.ways && c.Matches(v, a) ensures v == w {
      UniqueMatch(c, a, v, w);
    }
    SurvivesWhileDistant(c, a, w, xs, words);
  }
}

// Load balancing of the golden scheduler
// (models/systemc/src/scheduler/warp_scheduler.cpp:125-148).

module Balance {
  import opened Sums

  function CountIn(w: nat): seq<nat> -> int { (q: seq<nat>) => multiset(q)[w] }

  /** How often warp w is queued. */
  function Copies(queues: seq<seq<nat>>, w: nat): int { Total(queues, CountIn(w)) }

  function Square(q: seq<nat>): int { |q| * |q| }

  /** The front of queue `from` moved to the back of queue `to`. */
  function Moved(queues: seq<seq<nat>>, from: nat, to: nat): seq<seq<nat>>
    requires from < |queues| && to < |queues| && from != to && queues[from] != []
  {
    queues[from := queues[from][1..]][to := queues[to] + [queues[from][0]]]
  }

  /** A move keeps every warp, and brings the lengths closer together. */
  lemma MoveKeeps(queues: seq<seq<nat>>, from: nat, to: nat)
    requires from < |queues| && to < |queues| && |queues[from]| > |queues[to]| + 1
    ensures forall w: nat :: Copies(Moved(queues, from, to), w) == Copies(queues, w)
    ensures Total(Moved(queues, from, to), Square) < Total(queues, Square)
  {
    var a, b := queues[from], queues[to];
    var popped := queues[from := a[1..]];
    assert a == [a[0]] + a[1..];
    forall w: nat ensures Copies(Moved(queues, from, to), w) == Copies(queues, w) {
      TotalUpdate(queues, from, a[1..], CountIn(w));
      TotalUpdate(popped, to, b + [a[0]], CountIn(w));
    }
    TotalUpdate(queues, from, a[1..], Square);
    TotalUpdate(popped, to, b + [a[0]], Square);
    SquaresFall(|a|, |b|);
  }

  lemma SquaresFall(x: nat, y: nat)
    requires x > y + 1
    ensures (x - 1) * (x - 1) + (y + 1) * (y + 1) < x * x + y * y
  {
    assert (x - 1) * (x - 1) == x * x - 2 * x + 1;
    assert (y + 1) * (y + 1) == y * y + 2 * y + 1;
  }

  lemma SquaresNatural(queues: seq<seq<nat>>)
    ensures Total(queues, Square) >= 0
  {
    NotNegative(queues, Square);
  }

  predicate Within(queues: seq<seq<nat>>, gap: nat) {
    forall c, d :: 0 <= c < |queues| && 0 <= d < |queues| ==> |queues[c]| <= |queues[d]| + gap
  }

  /** `balanceLoadAcrossUnits` ends from any queues, loses and invents no warp, and
      leaves all lengths within one of each other. */
  method BalanceLoadAcrossUnits(readyQueues: array<seq<nat>>)
    modifies readyQueues
    ensures forall w: nat :: Copies(readyQueues[..], w) == Copies(old(readyQueues[..]), w)
    ensures Within(readyQueues[..], 1)
  {
    if readyQueues.Length < 2 {
      return;
    }
    var moved := true;
    while moved
      invariant forall w: nat :: Copies(readyQueues[..], w) == Copies(old(readyQueues[..]), w)
      invariant !moved ==> Within(readyQueues[..], 1)
      decreases Total(readyQueues[..], Square), moved
    {
      hide Copies;
      moved := false;
      ghost var before := readyQueues[..];
      SquaresNatural(before);
      var maxCu, minCu := Extremes(readyQueues);
      if |readyQueues[maxCu]| > |readyQueues[minCu]| + 1 {
        MoveKeeps(before, maxCu, minCu);
        var warp := readyQueues[maxCu][0];
        readyQueues[maxCu] := readyQueues[maxCu][1..];
        readyQueues[minCu] := readyQueues[minCu] + [warp];
        assert readyQueues[..] == Moved(before, maxCu, minCu);
        moved := true;
      }
    }
  }

  method Extremes(queues: array<seq<nat>>) returns (maxCu: nat, minCu: nat)
    requires queues.Length > 0
    ensures maxCu < queues.Length && minCu < queues.Length
    ensures forall c :: 0 <= c < queues.Length ==> |queues[minCu]| <= |queues[c]| <= |queues[maxCu]|
  {
    maxCu, minCu := 0, 0;
    for i := 1 to queues.Length
      invariant maxCu < queues.Length && minCu < queues.Length
      invariant forall c :: 0 <= c < i ==> |queues[minCu]| <= |queues[c]| <= |queues[maxCu]|
    {
      if |queues[i]| > |queues[maxCu]| {
        maxCu := i;
      }
      if |queues[i]| < |queues[minCu]| {
        minCu := i;
      }
    }
  }
}

/** What every history of allocations and frees keeps, for one buddy tree. */
module BuddyRuns {
  import opened Options
  import opened PowersOfTwo
  import opened BuddyTree

  /** A request of the kernel; freeing an address that was never granted is allowed. */
  datatype Op = Allocate(need: nat) | GiveBack(addr: int)

  /** Size 0 is not a request: allocateMemory would split for ever. */
  predicate Legal(ops: seq<Op>) {
    forall i :: 0 <= i < |ops| && ops[i].Allocate? ==> ops[i].need >= 1
  }

  function Step(t: Tree, base: int, op: Op): (r: Tree)
    requires Shaped(t) && Legal([op])
  {
    assert op == [op][0];
    match op
    case Allocate(need) => Alloc(t, need, base).0
    case GiveBack(addr) => Release(t, base, base, addr).0
  }

  /** What the clients know: who was granted what and has not given it back. */
  function Granted(live: set<Slot>, answer: Option<int>, op: Op): set<Slot> {
    match op
    case Allocate(need) => if answer.Some? then live + {Slot(answer.value, RoundUp(need), need)} else live
    case GiveBack(addr) => set x | x in live && x.addr != addr
  }

  function Answer(t: Tree, base: int, op: Op): Option<int>
    requires Shaped(t) && Legal([op])
  {
    assert op == [op][0];
    match op
    case Allocate(need) => Alloc(t, need, base).1
    case GiveBack(_) => None
  }

  /** The tree and the clients' ledger after a history, oldest request first. */
  ghost function Run(total: nat, base: int, ops: seq<Op>): (r: (Tree, set<Slot>))
    requires IsPow2(total) && Legal(ops)
    ensures WellFormed(r.0) && r.0.slotSize == total && Live(r.0, base) == r.1
    decreases |ops|
  {
    if ops == [] then (Free(total), {})
    else
      var n := |ops| - 1;
      var (t, book) := Run(total, base, ops[..n]);
      assert Legal([ops[n]]);
      StepKeepsLedger(t, base, ops[n]);
      (Step(t, base, ops[n]), Granted(book, Answer(t, base, ops[n]), ops[n]))
  }

  lemma StepKeepsLedger(t: Tree, base: int, op: Op)
    requires WellFormed(t) && Legal([op])
    ensures var t' := Step(t, base, op);
            WellFormed(t') && t'.slotSize == t.slotSize &&
            Live(t', base) == Granted(Live(t, base), Answer(t, base, op), op)
  {
    assert op == [op][0];
    match op
    case Allocate(need) =>
      if Alloc(t, need, base).1.Some? {
        AllocAddsSlot(t, need, base);
        AllocCoalesced(t, need, base);
      } else {
        AllocFailureFrame(t, need, base);
      }
    case GiveBack(addr) =>
      if x :| x in Live(t, base) && x.addr == addr {
        ReleaseRemovesSlot(t, base, base, x);
        forall y | y in Live(t, base) && y != x ensures y.addr != addr {
          LiveDisjoint(t, base, x, y);
          LiveAreBlocks(t, base, x);
          LiveAreBlocks(t, base, y);
        }
      } else {
        ReleaseRejects(t, base, base, addr);
      }
  }

  /** Safety over all runs: granted blocks are aligned blocks of the managed range, tight for their
      request, and pairwise disjoint. */
  lemma RunIsSafe(total: nat, base: int, ops: seq<Op>)
    requires IsPow2(total) && Legal(ops)
    ensures var book := Run(total, base, ops).1;
            (forall x :: x in book ==>
               IsBlock(x.addr, x.size, base, total) && 1 <= x.requested <= x.size < 2 * x.requested) &&
            (forall x, y :: x in book && y in book && x != y ==> Apart(x.addr, x.size, y.addr, y.size))
  {
    var (t, book) := Run(total, base, ops);
    forall x | x in book
      ensures IsBlock(x.addr, x.size, base, total) && 1 <= x.requested <= x.size < 2 * x.requested
    {
      LiveAreBlocks(t, base, x);
    }
    forall x, y | x in book && y in book && x != y
      ensures Apart(x.addr, x.size, y.addr, y.size)
    {
      LiveDisjoint(t, base, x, y);
    }
  }

  /** Complete coalescing over all runs, and with it completeness of the next allocation. */
  lemma RunIsCoalesced(total: nat, base: int, ops: seq<Op>, need: nat)
    requires IsPow2(total) && Legal(ops) && need >= 1
    ensures var (t, book) := Run(total, base, ops);
            (forall a: int, s: nat :: IsBlock(a, s, base, total) && TouchesNone(a, s, book) ==>
               InsideFreeLeaf(a, s, FreeLeaves(t, base))) &&
            (Alloc(t, need, base).1 == None <==>
             !exists a: int :: IsBlock(a, RoundUp(need), base, total) && TouchesNone(a, RoundUp(need), book))
  {
    var (t, book) := Run(total, base, ops);
    forall a: int, s: nat | IsBlock(a, s, base, total) && TouchesNone(a, s, book)
      ensures InsideFreeLeaf(a, s, FreeLeaves(t, base))
    {
      UntouchedBlockIsInOneLeaf(t, base, a, s);
    }
    AllocFailsIffNoBlock(t, need, base);
  }

  /** Two histories that leave the same blocks granted leave the identical tree. */
  lemma SameBlocksSameTree(total: nat, base: int, ops: seq<Op>, ops': seq<Op>)
    requires IsPow2(total) && Legal(ops) && Legal(ops')
    requires Run(total, base, ops).1 == Run(total, base, ops').1
    ensures Run(total, base, ops).0 == Run(total, base, ops').0
  {
    LiveDeterminesTree(Run(total, base, ops).0, Run(total, base, ops').0, base);
  }

  function Frees(order: seq<int>): (r: seq<Op>)
    ensures |r| == |order| && Legal(r)
    ensures forall i :: 0 <= i < |r| ==> r[i] == GiveBack(order[i])
  {
    seq(|order|, i requires 0 <= i < |order| => GiveBack(order[i]))
  }

  lemma {:induction false} FreesRemove(total: nat, base: int, ops: seq<Op>, order: seq<int>)
    requires IsPow2(total) && Legal(ops)
    ensures Legal(ops + Frees(order))
    ensures Run(total, base, ops + Frees(order)).1 == set x | x in Run(total, base, ops).1 && x.addr !in order
    decreases |order|
  {
    if order == [] {
      assert ops + Frees(order) == ops;
    } else {
      var n := |order| - 1;
      FreesRemove(total, base, ops, order[..n]);
      assert (ops + Frees(order))[..|ops| + n] == ops + Frees(order[..n]);
      assert order == order[..n] + [order[n]];
    }
  }

  /** Freeing all granted blocks, in any order, brings back the single free root. */
  lemma FreeingAllRestoresRoot(total: nat, base: int, ops: seq<Op>, order: seq<int>)
    requires IsPow2(total) && Legal(ops)
    requires forall x :: x in Run(total, base, ops).1 ==> x.addr in order
    ensures Legal(ops + Frees(order)) && Run(total, base, ops + Frees(order)).0 == Free(total)
  {
    FreesRemove(total, base, ops, order);
    OnlyFreeIsEmpty(Run(total, base, ops + Frees(order)).0, base);
  }

  // ---------------------------------------------------------------- conservation

  ghost function SumRequested(slots: set<Slot>): nat {
    if slots == {} then 0
    else var x :| x in slots; x.requested + SumRequested(slots - {x})
  }

  lemma {:induction false} SumRemove(slots: set<Slot>, y: Slot)
    requires y in slots
    ensures SumRequested(slots) == y.requested + SumRequested(slots - {y})
    decreases slots
  {
    var x :| x in slots && SumRequested(slots) == x.requested + SumRequested(slots - {x});
    if x != y {
      SumRemove(slots - {x}, y);
      SumRemove(slots - {y}, x);
      assert slots - {x} - {y} == slots - {y} - {x};
    }
  }

  lemma {:induction false} SumUnion(a: set<Slot>, b: set<Slot>)
    requires a !! b
    ensures SumRequested(a + b) == SumRequested(a) + SumRequested(b)
    decreases a
  {
    if a == {} {
      assert a + b == b;
    } else {
      var x :| x in a;
      SumRemove(a, x);
      SumRemove(a + b, x);
      assert (a + b) - {x} == (a - {x}) + b;
      SumUnion(a - {x}, b);
    }
  }

  lemma SumOfOne(x: Slot)
    ensures SumRequested({x}) == x.requested
  {
    SumRemove({x}, x);
    assert {x} - {x} == {};
  }

  lemma SumOfHalves(l: Tree, h: Tree, base: int, mid: int)
    requires Shaped(l) && Shaped(h) && mid == base + l.slotSize
    ensures SumRequested(Live(l, base) + Live(h, mid)) == SumRequested(Live(l, base)) + SumRequested(Live(h, mid))
  {
    forall x | x in Live(l, base) ensures x !in Live(h, mid) {
      LiveAreBlocks(l, base, x);
      if x in Live(h, mid) {
        LiveAreBlocks(h, mid, x);
      }
    }
    SumUnion(Live(l, base), Live(h, mid));
  }

  /** Conservation: the reported internal fragmentation plus the bytes asked for is the managed size. */
  lemma {:induction false} FragmentationIsTheRest(t: Tree, base: int)
    requires Shaped(t)
    ensures InternalFragmentation(t) + SumRequested(Live(t, base)) == t.slotSize
  {
    match t
    case Free(_) =>
    case Occupied(s, m) =>
      SumOfOne(Slot(base, s, m));
    case Split(s, l, h) =>
      FragmentationIsTheRest(l, base);
      FragmentationIsTheRest(h, base + s / 2);
      SumOfHalves(l, h, base, base + s / 2);
  }

  lemma RunConserves(total: nat, base: int, ops: seq<Op>)
    requires IsPow2(total) && Legal(ops)
    ensures var (t, book) := Run(total, base, ops); InternalFragmentation(t) + SumRequested(book) == total
  {
    FragmentationIsTheRest(Run(total, base, ops).0, base);
  }
}

/** What every history of requestPages and freePages keeps, across all buddies. */
module ManagerRuns {
  import opened Options
  import opened PowersOfTwo
  import opened BuddyTree
  import opened BuddyRuns
  import opened MemoryBanks

  /** Requests of at least one byte, frees of 64-bit addresses. */
  predicate LegalCalls(ops: seq<Op>) {
    forall i :: 0 <= i < |ops| ==>
      match ops[i] { case Allocate(need) => need >= 1 case GiveBack(addr) => 0 <= addr < ADDRESS_SPACE }
  }

  /** The same places and sizes, whatever the trees. */
  predicate SameLayout(a: seq<Bank>, b: seq<Bank>) {
    |a| == |b| &&
    forall i :: 0 <= i < |a| ==> a[i].offset == b[i].offset && a[i].tree.slotSize == b[i].tree.slotSize
  }

  ghost function Step(banks: seq<Bank>, base: nat, op: Op): (r: (seq<Bank>, Option<int>))
    requires Contiguous(banks, base) && base > 0 && LegalCalls([op])
    ensures Contiguous(r.0, base) && SameLayout(banks, r.0)
    ensures LiveAll(r.0) == Granted(LiveAll(banks), r.1, op)
  {
    assert op == [op][0];
    match op
    case Allocate(need) =>
      var (banks', addr) := Request(banks, need, |banks|);
      StepRequest(banks, base, need);
      (banks', if addr == 0 then None else Some(addr))
    case GiveBack(addr) =>
      StepRelease(banks, base, addr);
      (ReleaseIn(banks, addr, 0), None)
  }

  lemma StepRequest(banks: seq<Bank>, base: nat, need: nat)
    requires Contiguous(banks, base) && base > 0 && need >= 1
    ensures var (banks', addr) := Request(banks, need, |banks|);
            Contiguous(banks', base) && SameLayout(banks, banks') &&
            LiveAll(banks') == LiveAll(banks) + if addr == 0 then {} else {Slot(addr, RoundUp(need), need)}
  {
    var i := RequestShape(banks, need, |banks|);
    if Request(banks, need, |banks|).1 != 0 {
      RequestGrants(banks, base, need);
    } else {
      RequestRefuses(banks, base, need);
    }
  }

  lemma StepRelease(banks: seq<Bank>, base: nat, addr: nat)
    requires Contiguous(banks, base) && addr < ADDRESS_SPACE
    ensures var banks' := ReleaseIn(banks, addr, 0);
            Contiguous(banks', base) && SameLayout(banks, banks') &&
            LiveAll(banks') == set x | x in LiveAll(banks) && x.addr != addr
  {
    if x :| x in LiveAll(banks) && x.addr == addr {
      ReleaseRemoves(banks, base, x);
      ReleaseKeepsLayout(banks, base, x);
      forall y | y in LiveAll(banks) && y != x ensures y.addr != addr {
        LiveAllDisjoint(banks, base, x, y);
        LiveAllPositive(banks, base, x);
        LiveAllPositive(banks, base, y);
      }
    } else {
      ReleaseIgnores(banks, base, addr);
    }
  }

  lemma ReleaseKeepsLayout(banks: seq<Bank>, base: nat, x: Slot)
    requires Contiguous(banks, base) && x in LiveAll(banks)
    ensures 0 <= x.addr < ADDRESS_SPACE && SameLayout(banks, ReleaseIn(banks, x.addr, 0))
  {
    var i :| 0 <= i < |banks| && x in Live(banks[i].tree, banks[i].offset);
    LiveAreBlocks(banks[i].tree, banks[i].offset, x);
    ReleasePicksOwner(banks, base, x.addr, 0, i);
    ReleaseRemovesSlot(banks[i].tree, banks[i].offset, banks[i].offset, x);
  }

  /** The block is an aligned power-of-two block of one bank. */
  ghost predicate InSomeBank(x: Slot, banks: seq<Bank>) {
    exists i :: 0 <= i < |banks| && IsBlock(x.addr, x.size, banks[i].offset, banks[i].tree.slotSize)
  }

  lemma LiveAllPositive(banks: seq<Bank>, base: nat, x: Slot)
    requires Contiguous(banks, base) && x in LiveAll(banks)
    ensures x.size > 0 && x.requested <= x.size < 2 * x.requested && IsPow2(x.size)
    ensures InSomeBank(x, banks)
  {
    var i :| 0 <= i < |banks| && x in Live(banks[i].tree, banks[i].offset);
    LiveAreBlocks(banks[i].tree, banks[i].offset, x);
  }

  /** The banks and the clients' ledger after a history, oldest call first. */
  ghost function Run(start: seq<Bank>, base: nat, ops: seq<Op>): (r: (seq<Bank>, set<Slot>))
    requires Contiguous(start, base) && base > 0 && LiveAll(start) == {} && LegalCalls(ops)
    ensures Contiguous(r.0, base) && SameLayout(start, r.0) && LiveAll(r.0) == r.1
    decreases |ops|
  {
    if ops == [] then (start, {})
    else
      var n := |ops| - 1;
      var (banks, book) := Run(start, base, ops[..n]);
      var (banks', answer) := Step(banks, base, ops[n]);
      (banks', Granted(book, answer, ops[n]))
  }

  /** Safety over all histories: blocks granted anywhere are tight, aligned inside one bank and disjoint. */
  lemma RunIsSafe(start: seq<Bank>, base: nat, ops: seq<Op>)
    requires Contiguous(start, base) && base > 0 && LiveAll(start) == {} && LegalCalls(ops)
    ensures var (banks, book) := Run(start, base, ops);
            (forall x :: x in book ==> x.requested <= x.size < 2 * x.requested && InSomeBank(x, banks)) &&
            (forall x, y :: x in book && y in book && x != y ==> Apart(x.addr, x.size, y.addr, y.size))
  {
    var (banks, book) := Run(start, base, ops);
    forall x | x in book
      ensures x.requested <= x.size < 2 * x.requested && InSomeBank(x, banks)
    {
      LiveAllPositive(banks, base, x);
    }
    forall x, y | x in book && y in book && x != y ensures Apart(x.addr, x.size, y.addr, y.size) {
      LiveAllDisjoint(banks, base, x, y);
    }
  }

  /** Two histories that leave the same blocks granted leave identical trees in every bank. */
  lemma SameBlocksSameBanks(start: seq<Bank>, base: nat, ops: seq<Op>, ops': seq<Op>)
    requires Contiguous(start, base) && base > 0 && LiveAll(start) == {} && LegalCalls(ops) && LegalCalls(ops')
    requires Run(start, base, ops).1 == Run(start, base, ops').1
    ensures Run(start, base, ops).0 == Run(start, base, ops').0
  {
    var a, b := Run(start, base, ops).0, Run(start, base, ops').0;
    forall i | 0 <= i < |a| ensures a[i] == b[i] {
      LiveOfBank(a, base, i);
      LiveOfBank(b, base, i);
      LiveDeterminesTree(a[i].tree, b[i].tree, a[i].offset);
    }
  }

  /** The blocks of one bank are the granted blocks whose address lies in it. */
  lemma LiveOfBank(banks: seq<Bank>, base: nat, i: nat)
    requires Contiguous(banks, base) && i < |banks|
    ensures Live(banks[i].tree, banks[i].offset) ==
            set x | x in LiveAll(banks) && banks[i].offset <= x.addr < End(banks[i])
  {
    forall x | x in LiveAll(banks) && banks[i].offset <= x.addr < End(banks[i])
      ensures x in Live(banks[i].tree, banks[i].offset)
    {
      var j :| 0 <= j < |banks| && x in Live(banks[j].tree, banks[j].offset);
      if j != i {
        ElsewhereDisjoint(banks, base, x, i, j);
      }
    }
    forall x | x in Live(banks[i].tree, banks[i].offset)
      ensures x in LiveAll(banks) && banks[i].offset <= x.addr < End(banks[i])
    {
      LiveAreBlocks(banks[i].tree, banks[i].offset, x);
    }
  }

  /** Once everything has been given back, in whatever order, every bank is what it was at the start. */
  lemma AllGivenBack(start: seq<Bank>, base: nat, ops: seq<Op>)
    requires Contiguous(start, base) && base > 0 && LiveAll(start) == {} && LegalCalls(ops)
    requires Run(start, base, ops).1 == {}
    ensures Run(start, base, ops).0 == start
  {
    assert Run(start, base, []).1 == {};
    SameBlocksSameBanks(start, base, ops, []);
  }
}

/** The composed allocator as a value: up to eight buddy trees side by side. */
module MemoryBanks {
  import opened Options
  import opened PowersOfTwo
  import opened BuddyTree

  const N_BUDDIES := 8
  const ADDRESS_SPACE: int := 0x1_0000_0000_0000_0000

  /** One buddy: the address its memory starts at and its tree, whose root size is memSize. */
  datatype Bank = Bank(offset: nat, tree: Tree)

  // ---------------------------------------------------------------- startBuddies

  /** The binary decomposition of total, largest power first, cut after n regions. */
  function Regions(total: nat, n: nat): (r: seq<nat>)
    ensures |r| <= n
    decreases total
  {
    if n == 0 || total == 0 then []
    else [RoundDown(total)] + Regions(total - RoundDown(total), n - 1)
  }

  function Sum(s: seq<nat>): nat {
    if s == [] then 0 else s[0] + Sum(s[1..])
  }

  predicate DecreasingPowers(r: seq<nat>, bound: nat) {
    (forall i :: 0 <= i < |r| ==> 0 < r[i] <= bound && IsPow2(r[i])) &&
    (forall i, j :: 0 <= i < j < |r| ==> r[j] < r[i])
  }

  /** Region decomposition: strictly decreasing powers of two. */
  lemma {:induction false} RegionsDecrease(total: nat, n: nat)
    ensures DecreasingPowers(Regions(total, n), total)
    decreases n
  {
    if n > 0 && total > 0 {
      var p := RoundDown(total);
      RegionsDecrease(total - p, n - 1);
      ConsDecreasing(p, Regions(total - p, n - 1), total);
    }
  }

  lemma ConsDecreasing(p: nat, s: seq<nat>, total: nat)
    requires p <= total < 2 * p && IsPow2(p) && DecreasingPowers(s, total - p)
    ensures DecreasingPowers([p] + s, total)
  {
    var r := [p] + s;
    forall i | 0 <= i < |r| ensures 0 < r[i] <= total && IsPow2(r[i]) {
      if i > 0 {
        assert r[i] == s[i - 1];
      }
    }
    forall i, j | 0 <= i < j < |r| ensures r[j] < r[i] {
      assert r[j] == s[j - 1];
      if i > 0 {
        assert r[i] == s[i - 1];
      }
    }
  }

  lemma RestHalves(rest: nat, k: nat, total: nat, p: nat)
    requires rest * k <= total - p && total < 2 * p
    ensures rest * (2 * k) < total
  {
    assert rest * (2 * k) == 2 * (rest * k);
  }

  /** What n regions leave over is less than one part in 2^n, and nothing if fewer were needed. */
  lemma {:induction false} RegionsLeaveLittle(total: nat, n: nat)
    ensures Sum(Regions(total, n)) <= total
    ensures (total - Sum(Regions(total, n))) * Pow2(n) <= total
    ensures n > 0 && total > 0 ==> (total - Sum(Regions(total, n))) * Pow2(n) < total
    ensures |Regions(total, n)| < n ==> Sum(Regions(total, n)) == total
    decreases n
  {
    if n > 0 && total > 0 {
      var p := RoundDown(total);
      RegionsLeaveLittle(total - p, n - 1);
      var s := Regions(total - p, n - 1);
      assert ([p] + s)[1..] == s;
      RestHalves(total - p - Sum(s), Pow2(n - 1), total, p);
      assert Sum(Regions(total, n)) == p + Sum(s);
    }
  }

  /** The eight regions of startBuddies leave less than one part in 256. */
  lemma StartLeavesLittle(total: nat)
    requires total > 0
    ensures (total - Sum(Regions(total, N_BUDDIES))) * 256 < total
  {
    RegionsLeaveLittle(total, N_BUDDIES);
    assert Pow2(8) == 256;
  }

  // ---------------------------------------------------------------- composed state

  /** Well-formed trees laid out one after the other from `base`, inside the address space. */
  ghost predicate Contiguous(banks: seq<Bank>, base: nat) {
    (forall i :: 0 <= i < |banks| ==> WellFormed(banks[i].tree)) && SideBySide(banks, base)
  }

  ghost predicate SideBySide(banks: seq<Bank>, base: nat) {
    (forall i :: 0 <= i < |banks| ==> banks[i].offset >= base) &&
    (forall i :: 0 <= i < |banks| ==> End(banks[i]) <= ADDRESS_SPACE) &&
    (|banks| > 0 ==> banks[0].offset == base) &&
    (forall i, j :: 0 <= i < j < |banks| && j == i + 1 ==> banks[j].offset == End(banks[i]))
  }

  function End(b: Bank): nat {
    b.offset + b.tree.slotSize
  }

  /** All granted blocks. */
  ghost function LiveAll(banks: seq<Bank>): set<Slot> {
    set i, x | 0 <= i < |banks| && x in Live(banks[i].tree, banks[i].offset) :: x
  }

  lemma {:induction false} BanksOrdered(banks: seq<Bank>, base: nat, i: nat, j: nat)
    requires Contiguous(banks, base) && i < j < |banks|
    ensures End(banks[i]) <= banks[j].offset
  {
    if i < j - 1 {
      BanksOrdered(banks, base, i, j - 1);
    }
  }

  /** Blocks of all banks lie in their own bank and are pairwise disjoint. */
  lemma LiveAllDisjoint(banks: seq<Bank>, base: nat, x: Slot, y: Slot)
    requires Contiguous(banks, base) && x in LiveAll(banks) && y in LiveAll(banks) && x != y
    ensures Apart(x.addr, x.size, y.addr, y.size)
  {
    var i :| 0 <= i < |banks| && x in Live(banks[i].tree, banks[i].offset);
    var j :| 0 <= j < |banks| && y in Live(banks[j].tree, banks[j].offset);
    if i == j {
      LiveDisjoint(banks[i].tree, banks[i].offset, x, y);
    } else {
      LiveAreBlocks(banks[i].tree, banks[i].offset, x);
      LiveAreBlocks(banks[j].tree, banks[j].offset, y);
      if i < j {
        BanksOrdered(banks, base, i, j);
      } else {
        BanksOrdered(banks, base, j, i);
      }
    }
  }

  // ---------------------------------------------------------------- requestPages

  /** What allocateMemory relies on: trees of the right shape at non-zero addresses. */
  predicate Usable(banks: seq<Bank>) {
    forall i :: 0 <= i < |banks| ==> Shaped(banks[i].tree) && banks[i].offset > 0
  }

  /** requestPages among the first k banks, last bank first; address 0 is NULL. */
  function Request(banks: seq<Bank>, need: nat, k: nat): (r: (seq<Bank>, int))
    requires k <= |banks| && need >= 1 && Usable(banks)
    ensures |r.0| == |banks|
    decreases k
  {
    if k == 0 then (banks, 0)
    else
      var b := banks[k - 1];
      if b.tree.slotSize < need then Request(banks, need, k - 1)
      else
        var (t, a) := Alloc(b.tree, need, b.offset);
        if a.Some? then (banks[k - 1 := Bank(b.offset, t)], a.value)
        else Request(banks, need, k - 1)
  }

  /** A granted request changes one bank, by one allocation there. */
  lemma {:induction false} RequestShape(banks: seq<Bank>, need: nat, k: nat) returns (i: int)
    requires k <= |banks| && need >= 1 && Usable(banks)
    ensures -1 <= i < k
    ensures i < 0 ==> Request(banks, need, k) == (banks, 0)
    ensures forall j :: i < j < k ==> Alloc(banks[j].tree, need, banks[j].offset).1 == None
    ensures i >= 0 ==> var (t, a) := Alloc(banks[i].tree, need, banks[i].offset);
                       a.Some? && Request(banks, need, k) == (banks[i := Bank(banks[i].offset, t)], a.value)
    decreases k
  {
    if k == 0 {
      i := -1;
    } else if Alloc(banks[k - 1].tree, need, banks[k - 1].offset).1.Some? {
      i := k - 1;
    } else {
      i := RequestShape(banks, need, k - 1);
    }
  }

  /** Replacing one tree replaces its granted blocks. */
  lemma LiveAllUpdate(banks: seq<Bank>, base: nat, i: nat, t: Tree)
    requires Contiguous(banks, base) && i < |banks| && WellFormed(t) && t.slotSize == banks[i].tree.slotSize
    ensures var banks' := banks[i := Bank(banks[i].offset, t)];
            Contiguous(banks', base) &&
            LiveAll(banks') == LiveAll(banks) - Live(banks[i].tree, banks[i].offset) + Live(t, banks[i].offset)
  {
    var o := banks[i].offset;
    var banks' := banks[i := Bank(o, t)];
    forall x | x in LiveAll(banks')
      ensures x in LiveAll(banks) - Live(banks[i].tree, o) + Live(t, o)
    {
      var j :| 0 <= j < |banks'| && x in Live(banks'[j].tree, banks'[j].offset);
      if j != i {
        assert x in Live(banks[j].tree, banks[j].offset);
        ElsewhereDisjoint(banks, base, x, i, j);
      }
    }
    forall x | x in LiveAll(banks) - Live(banks[i].tree, o) + Live(t, o)
      ensures x in LiveAll(banks')
    {
      if x in Live(t, o) {
        assert x in Live(banks'[i].tree, banks'[i].offset);
      } else {
        var j :| 0 <= j < |banks| && x in Live(banks[j].tree, banks[j].offset);
        assert x in Live(banks'[j].tree, banks'[j].offset);
      }
    }
  }

  /** A block granted in one bank is no block of another, and overlaps none of its memory. */
  lemma ElsewhereDisjoint(banks: seq<Bank>, base: nat, x: Slot, i: nat, j: nat)
    requires Contiguous(banks, base) && i < |banks| && j < |banks| && i != j
    requires x in Live(banks[j].tree, banks[j].offset)
    ensures x !in Live(banks[i].tree, banks[i].offset)
    ensures Apart(x.addr, x.size, banks[i].offset, banks[i].tree.slotSize) && x.size > 0
  {
    LiveAreBlocks(banks[j].tree, banks[j].offset, x);
    if i < j {
      BanksOrdered(banks, base, i, j);
    } else {
      BanksOrdered(banks, base, j, i);
    }
    if x in Live(banks[i].tree, banks[i].offset) {
      LiveAreBlocks(banks[i].tree, banks[i].offset, x);
    }
  }

  /** Granting keeps the layout and adds one block of the rounded-up size, disjoint from all others. */
  lemma RequestGrants(banks: seq<Bank>, base: nat, need: nat)
    requires Contiguous(banks, base) && base > 0 && need >= 1 && Request(banks, need, |banks|).1 != 0
    ensures var (banks', addr) := Request(banks, need, |banks|);
            var x := Slot(addr, RoundUp(need), need);
            Contiguous(banks', base) && LiveAll(banks') == LiveAll(banks) + {x} &&
            TouchesNone(x.addr, x.size, LiveAll(banks))
  {
    var i := RequestShape(banks, need, |banks|);
    var (banks', addr) := Request(banks, need, |banks|);
    var x := Slot(addr, RoundUp(need), need);
    var t, o := banks[i].tree, banks[i].offset;
    var t' := Alloc(t, need, o).0;
    AllocCoalesced(t, need, o);
    AllocAddsSlot(t, need, o);
    LiveAllUpdate(banks, base, i, t');
    assert forall y :: y in Live(t, o) ==> y in LiveAll(banks);
    assert x in Live(t', o);
    LiveAreBlocks(t', o, x);
    forall y | y in LiveAll(banks) ensures Apart(x.addr, x.size, y.addr, y.size) {
      if y !in Live(t, o) {
        var j :| 0 <= j < |banks| && y in Live(banks[j].tree, banks[j].offset);
        ElsewhereDisjoint(banks, base, y, i, j);
      }
    }
  }

  /** A refusal changes nothing, and it comes exactly when no bank has a free aligned block. */
  lemma RequestRefuses(banks: seq<Bank>, base: nat, need: nat)
    requires Contiguous(banks, base) && base > 0 && need >= 1
    ensures var (banks', addr) := Request(banks, need, |banks|);
            (addr == 0 <==> NoBankHas(banks, RoundUp(need))) && (addr == 0 ==> banks' == banks)
  {
    var i := RequestShape(banks, need, |banks|);
    forall j | 0 <= j < |banks|
      ensures Alloc(banks[j].tree, need, banks[j].offset).1 == None <==> !HasBlock(banks[j], RoundUp(need))
    {
      AllocFailsIffNoBlock(banks[j].tree, need, banks[j].offset);
    }
    if i >= 0 {
      AllocInRange(banks[i].tree, need, banks[i].offset);
      assert HasBlock(banks[i], RoundUp(need));
    }
  }

  /** The smallest bank that has room serves the request, at its lowest free leaf that is big enough. */
  lemma RequestPrefersSmallest(banks: seq<Bank>, base: nat, need: nat) returns (i: nat)
    requires Contiguous(banks, base) && base > 0 && need >= 1 && Request(banks, need, |banks|).1 != 0
    ensures i < |banks| && HasBlock(banks[i], RoundUp(need))
    ensures forall j :: i < j < |banks| ==> !HasBlock(banks[j], RoundUp(need))
    ensures FirstFit(FreeLeaves(banks[i].tree, banks[i].offset), need) == Some(Request(banks, need, |banks|).1)
  {
    var served := RequestShape(banks, need, |banks|);
    i := served;
    AllocIsFirstFit(banks[i].tree, need, banks[i].offset);
    forall j | i <= j < |banks|
      ensures Alloc(banks[j].tree, need, banks[j].offset).1 == None <==> !HasBlock(banks[j], RoundUp(need))
    {
      AllocFailsIffNoBlock(banks[j].tree, need, banks[j].offset);
    }
  }

  ghost predicate HasBlock(b: Bank, size: nat) {
    exists a: int :: IsBlock(a, size, b.offset, b.tree.slotSize) && TouchesNone(a, size, Live(b.tree, b.offset))
  }

  ghost predicate NoBankHas(banks: seq<Bank>, size: nat) {
    forall j :: 0 <= j < |banks| ==> !HasBlock(banks[j], size)
  }

  // ---------------------------------------------------------------- freePages

  /** address - offset on 64-bit unsigned operands. */
  function WrappingDifference(address: nat, offset: nat): int {
    (address - offset) % ADDRESS_SPACE
  }

  /** freePages from bank i on: the first bank whose wrapping test accepts the address. */
  function ReleaseIn(banks: seq<Bank>, address: nat, i: nat): (r: seq<Bank>)
    requires i <= |banks|
    ensures |r| == |banks|
    decreases |banks| - i
  {
    if i == |banks| then banks
    else
      var b := banks[i];
      if WrappingDifference(address, b.offset) < b.tree.slotSize
      then banks[i := Bank(b.offset, Release(b.tree, b.offset, b.offset, address).0)]
      else ReleaseIn(banks, address, i + 1)
  }

  /** The wrapping test accepts exactly the addresses of the bank, also for addresses below it. */
  lemma WrappingTest(address: nat, b: Bank)
    requires address < ADDRESS_SPACE && End(b) <= ADDRESS_SPACE && b.tree.slotSize > 0
    ensures WrappingDifference(address, b.offset) < b.tree.slotSize <==> b.offset <= address < End(b)
  {
    if address < b.offset {
      DivUnique(address - b.offset, ADDRESS_SPACE, -1, address - b.offset + ADDRESS_SPACE);
    } else {
      DivUnique(address - b.offset, ADDRESS_SPACE, 0, address - b.offset);
    }
  }

  /** freePages reaches exactly the bank that contains the address. */
  lemma {:induction false} ReleasePicksOwner(banks: seq<Bank>, base: nat, address: nat, i: nat, owner: nat)
    requires Contiguous(banks, base) && address < ADDRESS_SPACE
    requires i <= owner < |banks| && banks[owner].offset <= address < End(banks[owner])
    ensures var b := banks[owner];
            ReleaseIn(banks, address, i) ==
            banks[owner := Bank(b.offset, Release(b.tree, b.offset, b.offset, address).0)]
    decreases owner - i
  {
    WrappingTest(address, banks[i]);
    if i < owner {
      BanksOrdered(banks, base, i, owner);
      ReleasePicksOwner(banks, base, address, i + 1, owner);
    }
  }

  lemma {:induction false} ReleaseOutside(banks: seq<Bank>, base: nat, address: nat, i: nat)
    requires Contiguous(banks, base) && address < ADDRESS_SPACE && i <= |banks|
    requires forall j :: i <= j < |banks| ==> !(banks[j].offset <= address < End(banks[j]))
    ensures ReleaseIn(banks, address, i) == banks
    decreases |banks| - i
  {
    if i < |banks| {
      WrappingTest(address, banks[i]);
      ReleaseOutside(banks, base, address, i + 1);
    }
  }

  /** Freeing the start of a granted block removes exactly that block from the whole allocator. */
  lemma ReleaseRemoves(banks: seq<Bank>, base: nat, x: Slot)
    requires Contiguous(banks, base) && x in LiveAll(banks)
    ensures 0 <= x.addr < ADDRESS_SPACE
    ensures Contiguous(ReleaseIn(banks, x.addr, 0), base)
    ensures LiveAll(ReleaseIn(banks, x.addr, 0)) == LiveAll(banks) - {x}
  {
    var i :| 0 <= i < |banks| && x in Live(banks[i].tree, banks[i].offset);
    var t, o := banks[i].tree, banks[i].offset;
    LiveAreBlocks(t, o, x);
    ReleasePicksOwner(banks, base, x.addr, 0, i);
    ReleaseRemovesSlot(t, o, o, x);
    var t' := Release(t, o, o, x.addr).0;
    LiveAllUpdate(banks, base, i, t');
    assert forall y :: y in Live(t, o) ==> y in LiveAll(banks);
  }

  /** Freeing any other address changes nothing. */
  lemma ReleaseIgnores(banks: seq<Bank>, base: nat, address: nat)
    requires Contiguous(banks, base) && address < ADDRESS_SPACE
    requires forall x :: x in LiveAll(banks) ==> x.addr != address
    ensures ReleaseIn(banks, address, 0) == banks
  {
    if i :| 0 <= i < |banks| && banks[i].offset <= address < End(banks[i]) {
      ReleasePicksOwner(banks, base, address, 0, i);
      forall x | x in Live(banks[i].tree, banks[i].offset) ensures x.addr != address {
        assert x in LiveAll(banks);
      }
      ReleaseRejects(banks[i].tree, banks[i].offset, banks[i].offset, address);
    } else {
      ReleaseOutside(banks, base, address, 0);
    }
  }

  /** The round trip across banks: freeing the address just granted restores every tree. */
  lemma ReleaseUndoesRequest(banks: seq<Bank>, base: nat, need: nat)
    requires Contiguous(banks, base) && base > 0 && need >= 1 && Request(banks, need, |banks|).1 != 0
    ensures var (banks', addr) := Request(banks, need, |banks|);
            addr >= 0 && ReleaseIn(banks', addr, 0) == banks
  {
    var i := RequestShape(banks, need, |banks|);
    var (banks', addr) := Request(banks, need, |banks|);
    var t, o := banks[i].tree, banks[i].offset;
    RequestGrants(banks, base, need);
    AllocInRange(t, need, o);
    AllocCoalesced(t, need, o);
    ReleasePicksOwner(banks', base, addr, 0, i);
    ReleaseUndoesAlloc(t, need, o, o);
    assert banks'[i := banks[i]] == banks;
  }
}

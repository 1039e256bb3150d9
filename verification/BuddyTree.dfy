/**
 * The buddy tree as a value: what allocateMemory and freeMemory do to it, and what that means.
 *
 * `low` is the C field `right` and `high` the C field `left`: the code descends into `right`
 * with the unchanged offset and into `left` with the offset of the upper half.
 */
module BuddyTree {
  import opened Options
  import opened PowersOfTwo

  datatype Tree =
    | Free(slotSize: nat)
    | Occupied(slotSize: nat, memSize: nat)
    | Split(slotSize: nat, low: Tree, high: Tree)

  /** A granted block: where it starts, how big its slot is and how much of it was asked for. */
  datatype Slot = Slot(addr: int, size: nat, requested: nat)

  // ---------------------------------------------------------------- well-formed trees

  /** Sizes are powers of two, halved at every split; an occupied slot is the tightest fit. */
  predicate Shaped(t: Tree) {
    IsPow2(t.slotSize) &&
    match t
    case Free(_) => true
    case Occupied(s, m) => m <= s < 2 * m
    case Split(s, l, h) => s > 1 && l.slotSize == s / 2 && h.slotSize == s / 2 && Shaped(l) && Shaped(h)
  }

  /** No two free buddies are left side by side. */
  predicate Coalesced(t: Tree) {
    t.Split? ==> !(t.low.Free? && t.high.Free?) && Coalesced(t.low) && Coalesced(t.high)
  }

  predicate WellFormed(t: Tree) {
    Shaped(t) && Coalesced(t)
  }

  /** The granted blocks of the tree when its memory starts at `base`. */
  function Live(t: Tree, base: int): set<Slot> {
    match t
    case Free(_) => {}
    case Occupied(s, m) => {Slot(base, s, m)}
    case Split(s, l, h) => Live(l, base) + Live(h, base + s / 2)
  }

  /** The free leaves, lowest address first. */
  function FreeLeaves(t: Tree, base: int): seq<(int, nat)> {
    match t
    case Free(s) => [(base, s)]
    case Occupied(_, _) => []
    case Split(s, l, h) => FreeLeaves(l, base) + FreeLeaves(h, base + s / 2)
  }

  // ---------------------------------------------------------------- the two operations

  /** allocateMemory: the tree it leaves and the address it grants (None is the C NULL). */
  function Alloc(t: Tree, need: nat, base: int): (r: (Tree, Option<int>))
    requires Shaped(t) && need >= 1
    ensures Shaped(r.0) && r.0.slotSize == t.slotSize
    decreases t.slotSize, if t.Free? then 1 else 0
  {
    if need > t.slotSize then (t, None)
    else match t
      case Split(s, l, h) =>
        var (l', a) := Alloc(l, need, base);
        if a.Some? then (Split(s, l', h), a)
        else
          var (h', b) := Alloc(h, need, base + s / 2);
          (Split(s, l', h'), b)
      case Free(s) =>
        if s / 2 < need then (Occupied(s, need), Some(base))
        else Alloc(Split(s, Free(s / 2), Free(s / 2)), need, base)
      case Occupied(_, _) => (t, None)
  }

  /** mergeChildren on a split node, with its return code. */
  function Merge(s: nat, l: Tree, h: Tree): (Tree, int) {
    if l.Free? && h.Free? then (Free(s), 1) else (Split(s, l, h), 0)
  }

  /** freeMemory: the tree it leaves and its return code. */
  function Release(t: Tree, offset: int, base: int, addr: int): (Tree, int)
    decreases t
  {
    if base < offset then (t, 0)
    else match t
      case Occupied(s, _) => if base == addr then (Free(s), 1) else (t, -1)
      case Free(_) => (t, -1)
      case Split(s, l, h) =>
        if addr < s / 2 + base then
          var (l', code) := Release(l, offset, base, addr);
          if code == 1 then Merge(s, l', h) else (Split(s, l', h), code)
        else
          var (h', code) := Release(h, offset, base + s / 2, addr);
          if code == 1 then Merge(s, l, h') else (Split(s, l, h'), code)
  }

  /** calculateInternalFragmentationRec; a FREE leaf carries memSize 0. */
  function InternalFragmentation(t: Tree): int {
    match t
    case Free(s) => s
    case Occupied(s, m) => s - m
    case Split(_, l, h) => InternalFragmentation(h) + InternalFragmentation(l)
  }

  // ---------------------------------------------------------------- blocks

  /** A power-of-two block inside [base, base + total), aligned relative to base to its own size. */
  predicate IsBlock(a: int, s: nat, base: int, total: nat) {
    IsPow2(s) && base <= a && a + s <= base + total && (a - base) % s == 0
  }

  predicate Apart(a: int, s: nat, b: int, r: nat) {
    a + s <= b || b + r <= a
  }

  ghost predicate TouchesNone(a: int, s: nat, live: set<Slot>) {
    forall x :: x in live ==> Apart(a, s, x.addr, x.size)
  }

  ghost predicate InsideFreeLeaf(a: int, s: nat, leaves: seq<(int, nat)>) {
    exists i :: 0 <= i < |leaves| && leaves[i].0 <= a && a + s <= leaves[i].0 + leaves[i].1
  }

  /** The first leaf, from the low end, that is big enough. */
  function FirstFit(leaves: seq<(int, nat)>, need: nat): Option<int> {
    if leaves == [] then None
    else if leaves[0].1 >= need then Some(leaves[0].0)
    else FirstFit(leaves[1..], need)
  }

  // ---------------------------------------------------------------- safety of the live slots

  /** A block of one half is a block of the whole. */
  lemma HalfBlock(a: int, s: nat, base: int, total: nat)
    requires IsPow2(total) && total > 1
    requires IsBlock(a, s, base, total / 2) || IsBlock(a, s, base + total / 2, total / 2)
    ensures IsBlock(a, s, base, total)
  {
    SmallerDivides(s, total / 2);
    AddMultiple(a - base - total / 2, total / 2, s);
  }

  /** Where the next multiple of s after i * s can be. */
  lemma NextMultiple(i: int, k: int, s: nat)
    ensures i < k ==> i * s + s <= k * s
    ensures k <= i ==> k * s <= i * s
  {
    if i < k {
      MulMonotone(i + 1, k, s);
    } else {
      MulMonotone(k, i, s);
    }
  }

  /** Among multiples of s, one below `half` ends below it, and one above stays a multiple past it. */
  lemma MultipleBeside(x: int, half: nat, s: nat)
    requires s > 0 && x % s == 0 && half % s == 0
    ensures x < half ==> x + s <= half
    ensures (x - half) % s == 0
  {
    var i, k := x / s, half / s;
    assert x == i * s && half == k * s;
    NextMultiple(i, k, s);
    assert x - half == (i - k) * s;
    MultipleMod(i - k, s);
  }

  /** A block no bigger than half lies in one half. */
  lemma BlockInHalf(a: int, s: nat, base: int, total: nat)
    requires IsPow2(total) && total > 1 && IsBlock(a, s, base, total) && s < total
    ensures IsBlock(a, s, base, total / 2) || IsBlock(a, s, base + total / 2, total / 2)
  {
    Pow2Gap(s, total);
    SmallerDivides(s, total / 2);
    MultipleBeside(a - base, total / 2, s);
    assert a - (base + total / 2) == a - base - total / 2;
  }

  /** Every granted block is an aligned block inside the managed range, and the tightest fit. */
  lemma {:induction false} LiveAreBlocks(t: Tree, base: int, x: Slot)
    requires Shaped(t) && x in Live(t, base)
    ensures IsBlock(x.addr, x.size, base, t.slotSize)
    ensures 1 <= x.requested <= x.size < 2 * x.requested
  {
    match t
    case Free(_) =>
    case Occupied(_, _) =>
    case Split(s, l, h) =>
      if x in Live(l, base) {
        LiveAreBlocks(l, base, x);
      } else {
        LiveAreBlocks(h, base + s / 2, x);
      }
      HalfBlock(x.addr, x.size, base, s);
  }

  /** Two different granted blocks do not overlap. */
  lemma {:induction false} LiveDisjoint(t: Tree, base: int, x: Slot, y: Slot)
    requires Shaped(t) && x in Live(t, base) && y in Live(t, base) && x != y
    ensures Apart(x.addr, x.size, y.addr, y.size)
  {
    match t
    case Occupied(_, _) =>
    case Split(s, l, h) =>
      var mid := base + s / 2;
      if x in Live(l, base) && y in Live(l, base) {
        LiveDisjoint(l, base, x, y);
      } else if x in Live(h, mid) && y in Live(h, mid) {
        LiveDisjoint(h, mid, x, y);
      } else if x in Live(l, base) {
        LiveAreBlocks(l, base, x);
        LiveAreBlocks(h, mid, y);
      } else {
        LiveAreBlocks(h, mid, x);
        LiveAreBlocks(l, base, y);
      }
  }

  // ---------------------------------------------------------------- allocation

  lemma {:induction false} FirstFitConcat(a: seq<(int, nat)>, b: seq<(int, nat)>, need: nat)
    ensures FirstFit(a + b, need) == if FirstFit(a, need).Some? then FirstFit(a, need) else FirstFit(b, need)
  {
    if a == [] {
      assert a + b == b;
    } else {
      assert (a + b)[1..] == a[1..] + b;
      FirstFitConcat(a[1..], b, need);
    }
  }

  lemma {:induction false} NoLeafTooSmall(t: Tree, need: nat, base: int)
    requires Shaped(t) && need > t.slotSize
    ensures FirstFit(FreeLeaves(t, base), need) == None
  {
    if t.Split? {
      NoLeafTooSmall(t.low, need, base);
      NoLeafTooSmall(t.high, need, base + t.slotSize / 2);
      FirstFitConcat(FreeLeaves(t.low, base), FreeLeaves(t.high, base + t.slotSize / 2), need);
    }
  }

  /** First fit: the grant is the base of the lowest free leaf that is big enough, and there is one
      whenever any leaf is. */
  lemma {:induction false} AllocIsFirstFit(t: Tree, need: nat, base: int)
    requires Shaped(t) && need >= 1
    ensures Alloc(t, need, base).1 == FirstFit(FreeLeaves(t, base), need)
    decreases t.slotSize, if t.Free? then 1 else 0
  {
    if need > t.slotSize {
      NoLeafTooSmall(t, need, base);
    } else {
      match t
      case Occupied(_, _) =>
      case Split(s, l, h) =>
        AllocIsFirstFit(l, need, base);
        AllocIsFirstFit(h, need, base + s / 2);
        FirstFitConcat(FreeLeaves(l, base), FreeLeaves(h, base + s / 2), need);
      case Free(s) =>
        if need <= s / 2 {
          var t' := Split(s, Free(s / 2), Free(s / 2));
          AllocIsFirstFit(t', need, base);
          assert FreeLeaves(t', base)[0] == (base, s / 2);
        }
    }
  }

  /** A grant lies in the managed range; with a positive base it is never the NULL address. */
  lemma {:induction false} AllocInRange(t: Tree, need: nat, base: int)
    requires Shaped(t) && need >= 1 && Alloc(t, need, base).1.Some?
    ensures base <= Alloc(t, need, base).1.value < base + t.slotSize
    decreases t.slotSize, if t.Free? then 1 else 0
  {
    match t
    case Occupied(_, _) =>
    case Split(s, l, h) =>
      if Alloc(l, need, base).1.Some? {
        AllocInRange(l, need, base);
      } else {
        AllocInRange(h, need, base + s / 2);
      }
    case Free(s) =>
      if need <= s / 2 {
        AllocInRange(Split(s, Free(s / 2), Free(s / 2)), need, base);
      }
  }

  /** What a failed allocation changes: nothing. */
  lemma {:induction false} AllocFailureFrame(t: Tree, need: nat, base: int)
    requires Shaped(t) && need >= 1 && Alloc(t, need, base).1 == None
    ensures Alloc(t, need, base).0 == t
    decreases t
  {
    match t
    case Occupied(_, _) =>
    case Split(s, l, h) =>
      if need <= s {
        AllocFailureFrame(l, need, base);
        AllocFailureFrame(h, need, base + s / 2);
      }
    case Free(s) =>
      AllocIsFirstFit(t, need, base);
  }

  /** Allocation in a split node: the low half first, then the high half. */
  lemma AllocHalves(t: Tree, need: nat, base: int)
    requires Shaped(t) && t.Split? && 1 <= need <= t.slotSize
    ensures var (l, a) := Alloc(t.low, need, base);
            var (h, b) := Alloc(t.high, need, base + t.slotSize / 2);
            Alloc(t, need, base) ==
            if a.Some? then (Split(t.slotSize, l, t.high), a) else (Split(t.slotSize, l, h), b)
  {
  }

  /** Blocks of the two halves never overlap. */
  lemma HalvesApart(l: Tree, h: Tree, base: int, mid: int)
    requires Shaped(l) && Shaped(h) && mid == base + l.slotSize
    ensures forall x :: x in Live(l, base) ==> TouchesNone(x.addr, x.size, Live(h, mid))
    ensures forall x :: x in Live(h, mid) ==> TouchesNone(x.addr, x.size, Live(l, base))
  {
    forall x | x in Live(l, base) ensures x.addr + x.size <= mid {
      LiveAreBlocks(l, base, x);
    }
    forall y | y in Live(h, mid) ensures mid <= y.addr {
      LiveAreBlocks(h, mid, y);
    }
  }

  /** u grants what t grants and x besides, which touches none of it. */
  ghost predicate Gains(t: Tree, u: Tree, base: int, x: Slot) {
    Live(u, base) == Live(t, base) + {x} && TouchesNone(x.addr, x.size, Live(t, base))
  }

  /** A block added to one half is added to the whole, and touches nothing of the other half. */
  lemma AddedToHalf(t: Tree, u: Tree, base: int, x: Slot)
    requires Shaped(t) && Shaped(u) && t.Split? && u.Split? && t.slotSize == u.slotSize
    ensures u.high == t.high && Gains(t.low, u.low, base, x) ==> Gains(t, u, base, x)
    ensures u.low == t.low && Gains(t.high, u.high, base + t.slotSize / 2, x) ==> Gains(t, u, base, x)
  {
    HalvesApart(u.low, u.high, base, base + t.slotSize / 2);
  }

  /** What a successful allocation adds: one slot of the rounded-up size, granted nowhere before. */
  lemma {:induction false} AllocAddsSlot(t: Tree, need: nat, base: int)
    requires Shaped(t) && need >= 1 && Alloc(t, need, base).1.Some?
    ensures var (t', a) := Alloc(t, need, base);
            var x := Slot(a.value, RoundUp(need), need);
            Live(t', base) == Live(t, base) + {x} && TouchesNone(x.addr, x.size, Live(t, base))
    decreases t.slotSize, if t.Free? then 1 else 0
  {
    match t
    case Split(s, l, h) =>
      var (t', a) := Alloc(t, need, base);
      if Alloc(l, need, base).1.Some? {
        AllocAddsSlot(l, need, base);
      } else {
        AllocFailureFrame(l, need, base);
        AllocAddsSlot(h, need, base + s / 2);
      }
      AddedToHalf(t, t', base, Slot(a.value, RoundUp(need), need));
    case Free(s) =>
      if s / 2 < need {
        RoundUpUnique(s, need);
      } else {
        AllocAddsSlot(Split(s, Free(s / 2), Free(s / 2)), need, base);
      }
  }

  /** Allocation keeps the tree coalesced, even from the transient pair of free halves. */
  lemma {:induction false} AllocCoalesced(t: Tree, need: nat, base: int)
    requires Shaped(t) && need >= 1 && Alloc(t, need, base).1.Some?
    requires t.Split? ==> Coalesced(t.low) && Coalesced(t.high)
    ensures Coalesced(Alloc(t, need, base).0) && !Alloc(t, need, base).0.Free?
    decreases t.slotSize, if t.Free? then 1 else 0
  {
    match t
    case Split(s, l, h) =>
      if Alloc(l, need, base).1.Some? {
        AllocCoalesced(l, need, base);
      } else {
        AllocFailureFrame(l, need, base);
        AllocCoalesced(h, need, base + s / 2);
      }
    case Free(s) =>
      if s / 2 >= need {
        AllocCoalesced(Split(s, Free(s / 2), Free(s / 2)), need, base);
      }
  }

  // ---------------------------------------------------------------- complete coalescing

  lemma {:induction false} OnlyFreeIsEmpty(t: Tree, base: int)
    requires WellFormed(t)
    ensures Live(t, base) == {} <==> t.Free?
  {
    if t.Split? {
      OnlyFreeIsEmpty(t.low, base);
      OnlyFreeIsEmpty(t.high, base + t.slotSize / 2);
    }
  }

  lemma LeafOfHalf(t: Tree, base: int, a: int, s: nat)
    requires t.Split?
    requires InsideFreeLeaf(a, s, FreeLeaves(t.low, base))
          || InsideFreeLeaf(a, s, FreeLeaves(t.high, base + t.slotSize / 2))
    ensures InsideFreeLeaf(a, s, FreeLeaves(t, base))
  {
    var l, h := FreeLeaves(t.low, base), FreeLeaves(t.high, base + t.slotSize / 2);
    if InsideFreeLeaf(a, s, l) {
      var i :| 0 <= i < |l| && l[i].0 <= a && a + s <= l[i].0 + l[i].1;
      assert (l + h)[i] == l[i];
    } else {
      var i :| 0 <= i < |h| && h[i].0 <= a && a + s <= h[i].0 + h[i].1;
      assert (l + h)[|l| + i] == h[i];
    }
  }

  lemma OccupiedIsTouched(t: Tree, base: int, a: int, s: nat)
    requires IsBlock(a, s, base, t.slotSize)
    ensures t.Occupied? ==> !TouchesNone(a, s, Live(t, base))
  {
    if t.Occupied? {
      var x := Slot(base, t.slotSize, t.memSize);
      assert x in Live(t, base) && !Apart(a, s, x.addr, x.size);
    }
  }

  /** Complete coalescing: an aligned power-of-two block that touches no granted block lies inside
      a single free leaf. */
  lemma {:induction false} UntouchedBlockIsInOneLeaf(t: Tree, base: int, a: int, s: nat)
    requires WellFormed(t) && IsBlock(a, s, base, t.slotSize) && TouchesNone(a, s, Live(t, base))
    ensures InsideFreeLeaf(a, s, FreeLeaves(t, base))
  {
    OccupiedIsTouched(t, base, a, s);
    match t
    case Free(n) =>
      assert FreeLeaves(t, base)[0] == (base, n);
    case Occupied(n, m) =>
      assert false;
    case Split(n, l, h) =>
      if s == n {
        OnlyFreeIsEmpty(t, base);
        var x :| x in Live(t, base);
        LiveAreBlocks(t, base, x);
        assert false;
      } else {
        BlockInHalf(a, s, base, n);
        if IsBlock(a, s, base, n / 2) {
          UntouchedBlockIsInOneLeaf(l, base, a, s);
        } else {
          UntouchedBlockIsInOneLeaf(h, base + n / 2, a, s);
        }
        LeafOfHalf(t, base, a, s);
      }
  }

  lemma {:induction false} FirstFitComplete(leaves: seq<(int, nat)>, need: nat, i: nat)
    requires i < |leaves| && leaves[i].1 >= need
    ensures FirstFit(leaves, need).Some?
  {
    if leaves[0].1 < need {
      FirstFitComplete(leaves[1..], need, i - 1);
    }
  }

  /** Completeness: NULL comes back exactly when no aligned block of the rounded-up size is free. */
  lemma AllocFailsIffNoBlock(t: Tree, need: nat, base: int)
    requires WellFormed(t) && need >= 1
    ensures Alloc(t, need, base).1 == None <==>
            !exists a: int ::
               IsBlock(a, RoundUp(need), base, t.slotSize) && TouchesNone(a, RoundUp(need), Live(t, base))
  {
    var size := RoundUp(need);
    var (t', r) := Alloc(t, need, base);
    if r.Some? {
      AllocAddsSlot(t, need, base);
      LiveAreBlocks(t', base, Slot(r.value, size, need));
      assert IsBlock(r.value, size, base, t.slotSize) && TouchesNone(r.value, size, Live(t, base));
    }
    if a: int :| IsBlock(a, size, base, t.slotSize) && TouchesNone(a, size, Live(t, base)) {
      UntouchedBlockIsInOneLeaf(t, base, a, size);
      var leaves := FreeLeaves(t, base);
      var i :| 0 <= i < |leaves| && leaves[i].0 <= a && a + size <= leaves[i].0 + leaves[i].1;
      FirstFitComplete(leaves, need, i);
      AllocIsFirstFit(t, need, base);
    }
  }

  // ---------------------------------------------------------------- release

  /** The half that holds a block is the one freeMemory descends into. */
  lemma OwnerHalf(t: Tree, base: int, x: Slot)
    requires Shaped(t) && t.Split? && x in Live(t, base)
    ensures x in Live(t.low, base) <==> x.addr < base + t.slotSize / 2
    ensures x in Live(t.high, base + t.slotSize / 2) <==> x.addr >= base + t.slotSize / 2
  {
    if x in Live(t.low, base) {
      LiveAreBlocks(t.low, base, x);
    }
    if x in Live(t.high, base + t.slotSize / 2) {
      LiveAreBlocks(t.high, base + t.slotSize / 2, x);
    }
  }

  /** mergeChildren after a free: the only way to become free is to be merged. */
  lemma MergeCoalesces(s: nat, l: Tree, h: Tree, base: int)
    requires WellFormed(l) && WellFormed(h) && IsPow2(s) && s > 1 && l.slotSize == s / 2 && h.slotSize == s / 2
    ensures var (t, code) := Merge(s, l, h);
            WellFormed(t) && t.slotSize == s && Live(t, base) == Live(l, base) + Live(h, base + s / 2) &&
            code == if t.Free? then 1 else 0
  {
  }

  lemma WellFormedParts(t: Tree)
    requires WellFormed(t)
    ensures WellFormed(Free(t.slotSize))
    ensures t.Split? ==>
              WellFormed(t.low) && WellFormed(t.high) &&
              t.low.slotSize == t.slotSize / 2 && t.high.slotSize == t.slotSize / 2
  {
  }

  /** Freeing the start of a granted block removes exactly that block, keeps the tree coalesced and
      reports 1 exactly when the whole tree became one free slot, 0 otherwise. */
  lemma {:induction false} ReleaseRemovesSlot(t: Tree, offset: int, base: int, x: Slot)
    requires WellFormed(t) && offset <= base && x in Live(t, base)
    ensures var (t', code) := Release(t, offset, base, x.addr);
            WellFormed(t') && t'.slotSize == t.slotSize && Live(t', base) == Live(t, base) - {x} &&
            code == if t'.Free? then 1 else 0
  {
    hide Shaped, Coalesced, IsPow2;
    WellFormedParts(t);
    match t
    case Occupied(_, _) =>
    case Split(s, l, h) =>
      OwnerHalf(t, base, x);
      if x in Live(l, base) {
        ReleaseRemovesSlot(l, offset, base, x);
        RemovedFromHalf(t, Release(l, offset, base, x.addr).0, h, base, x);
      } else {
        ReleaseRemovesSlot(h, offset, base + s / 2, x);
        RemovedFromHalf(t, l, Release(h, offset, base + s / 2, x.addr).0, base, x);
      }
  }

  /** A block removed from one half is removed from the whole, merged or not. */
  lemma RemovedFromHalf(t: Tree, l: Tree, h: Tree, base: int, x: Slot)
    requires WellFormed(t) && t.Split? && WellFormed(l) && WellFormed(h)
    requires l.slotSize == t.slotSize / 2 && h.slotSize == t.slotSize / 2
    requires var mid := base + t.slotSize / 2;
             (h == t.high && x in Live(t.low, base) && Live(l, base) == Live(t.low, base) - {x}) ||
             (l == t.low && x !in Live(t.low, base) && x in Live(t.high, mid) &&
              Live(h, mid) == Live(t.high, mid) - {x})
    ensures var t' := Merge(t.slotSize, l, h).0;
            WellFormed(t') && t'.slotSize == t.slotSize && Live(t', base) == Live(t, base) - {x}
  {
    OwnerHalf(t, base, x);
    MergeCoalesces(t.slotSize, l, h, base);
  }

  /** The start of the managed range only guards: a call from below it changes nothing and returns 0, and no call
      from the range is affected by it. */
  lemma {:induction false} OffsetOnlyGuards(t: Tree, offset: int, other: int, base: int, addr: int)
    ensures base < offset ==> Release(t, offset, base, addr) == (t, 0)
    ensures offset <= base && other <= base ==> Release(t, offset, base, addr) == Release(t, other, base, addr)
    decreases t
  {
    match t
    case Split(s, l, h) =>
      OffsetOnlyGuards(l, offset, other, base, addr);
      OffsetOnlyGuards(h, offset, other, base + s / 2, addr);
    case _ =>
  }

  /** Freeing anything else reports -1 and changes nothing. */
  lemma {:induction false} ReleaseRejects(t: Tree, offset: int, base: int, addr: int)
    requires Shaped(t) && offset <= base
    requires forall x :: x in Live(t, base) ==> x.addr != addr
    ensures Release(t, offset, base, addr) == (t, -1)
  {
    match t
    case Free(_) =>
    case Occupied(s, m) =>
      assert Slot(base, s, m) in Live(t, base);
    case Split(s, l, h) =>
      if addr < s / 2 + base {
        ReleaseRejects(l, offset, base, addr);
      } else {
        ReleaseRejects(h, offset, base + s / 2, addr);
      }
  }

  // ---------------------------------------------------------------- the tree is its live set

  lemma LiveOfHalves(t: Tree, base: int)
    requires t.Split? && Shaped(t)
    ensures forall x :: x in Live(t.low, base) <==> x in Live(t, base) && x.addr < base + t.slotSize / 2
    ensures forall x ::
              x in Live(t.high, base + t.slotSize / 2) <==> x in Live(t, base) && x.addr >= base + t.slotSize / 2
  {
    var mid := base + t.slotSize / 2;
    forall x | x in Live(t.low, base) ensures x.addr < mid {
      LiveAreBlocks(t.low, base, x);
    }
    forall x | x in Live(t.high, mid) ensures x.addr >= mid {
      LiveAreBlocks(t.high, mid, x);
    }
  }

  lemma SplitSlotsAreSmaller(t: Tree, base: int, x: Slot)
    requires Shaped(t) && t.Split? && x in Live(t, base)
    ensures x.size < t.slotSize
  {
    if x in Live(t.low, base) {
      LiveAreBlocks(t.low, base, x);
    } else {
      LiveAreBlocks(t.high, base + t.slotSize / 2, x);
    }
  }

  /** Canonicity: a coalesced tree is determined by its granted blocks, whatever the history. */
  lemma {:induction false} LiveDeterminesTree(t: Tree, u: Tree, base: int)
    requires WellFormed(t) && WellFormed(u) && t.slotSize == u.slotSize
    requires Live(t, base) == Live(u, base)
    ensures t == u
  {
    OnlyFreeIsEmpty(t, base);
    OnlyFreeIsEmpty(u, base);
    if t.Split? && u.Split? {
      LiveOfHalves(t, base);
      LiveOfHalves(u, base);
      LiveDeterminesTree(t.low, u.low, base);
      LiveDeterminesTree(t.high, u.high, base + t.slotSize / 2);
    } else if t.Split? && u.Occupied? {
      SplitSlotsAreSmaller(t, base, Slot(base, u.slotSize, u.memSize));
    } else if u.Split? && t.Occupied? {
      SplitSlotsAreSmaller(u, base, Slot(base, t.slotSize, t.memSize));
    } else if t.Occupied? {
      assert Slot(base, t.slotSize, t.memSize) in Live(u, base);
    }
  }

  /** Free undoes allocate: freeing the address just granted restores the identical tree. */
  lemma ReleaseUndoesAlloc(t: Tree, need: nat, offset: int, base: int)
    requires WellFormed(t) && need >= 1 && offset <= base && Alloc(t, need, base).1.Some?
    ensures var (t', a) := Alloc(t, need, base); Release(t', offset, base, a.value).0 == t
  {
    var (t', a) := Alloc(t, need, base);
    var x := Slot(a.value, RoundUp(need), need);
    AllocAddsSlot(t, need, base);
    AllocCoalesced(t, need, base);
    ReleaseRemovesSlot(t', offset, base, x);
    assert x !in Live(t, base);
    LiveDeterminesTree(Release(t', offset, base, x.addr).0, t, base);
  }
}

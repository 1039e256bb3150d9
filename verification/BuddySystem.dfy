/**
 * The mutable buddy tree: nodes that own a slot record and are split, granted, freed and merged in
 * place. Every method is tied to the value-level operation of module BuddyTree.
 */
module BuddySystem {
  import opened Options
  import opened PowersOfTwo
  import opened BuddyTree

  datatype SlotState = FREE | OCCUPIED | SPLIT

  /** memorySlotCDT */
  class MemorySlot {
    var state: SlotState
    var memSize: nat
    var slotSize: nat

    /** createMemSlot */
    constructor (slotSize: nat, memSize: nat)
      ensures this.slotSize == slotSize && this.memSize == memSize && state == FREE
    {
      this.slotSize := slotSize;
      this.memSize := memSize;
      state := FREE;
    }
  }

  /** An address as the C code returns it: 0 stands for NULL. */
  function Address(a: Option<int>): int {
    match a
    case None => 0
    case Some(v) => v
  }

  /** The allocations that come back (see AllocationEnds): size 0 does only when nothing is free. */
  predicate Answered(t: Tree, need: nat, base: int) {
    need >= 1 || FreeLeaves(t, base) == []
  }

  /** The address an allocation in t returns. */
  ghost function Grant(t: Tree, need: nat, base: int): int
    requires Shaped(t) && Answered(t, need, base)
  {
    if need == 0 then 0 else Address(Alloc(t, need, base).1)
  }

  ghost function After(t: Tree, need: nat, base: int): Tree
    requires Shaped(t) && Answered(t, need, base)
  {
    if need == 0 then t else Alloc(t, need, base).0
  }

  lemma AnsweredHalves(t: Tree, need: nat, base: int)
    requires t.Split? && Answered(t, need, base)
    ensures Answered(t.low, need, base) && Answered(t.high, need, base + t.slotSize / 2)
  {
  }

  /** Allocation in a split node, in terms of the addresses the code compares with NULL. */
  lemma AllocSplit(t: Tree, need: nat, base: int)
    requires Shaped(t) && t.Split? && Answered(t, need, base) && need <= t.slotSize && base > 0
    ensures Answered(t.low, need, base) && Answered(t.high, need, base + t.slotSize / 2)
    ensures Grant(t.low, need, base) != 0 ==>
              Grant(t, need, base) == Grant(t.low, need, base) &&
              After(t, need, base) == Split(t.slotSize, After(t.low, need, base), t.high)
    ensures Grant(t.low, need, base) == 0 ==>
              Grant(t, need, base) == Grant(t.high, need, base + t.slotSize / 2) &&
              After(t, need, base) ==
              Split(t.slotSize, After(t.low, need, base), After(t.high, need, base + t.slotSize / 2))
  {
    hide Alloc, FreeLeaves, IsPow2;
    AnsweredHalves(t, need, base);
    if need > 0 {
      AllocHalves(t, need, base);
    }
    if need > 0 && Alloc(t.low, need, base).1.Some? {
      AllocInRange(t.low, need, base);
    }
  }

  /** binaryTreeCDT; `tree` is the value the node stands for and Repr the objects below it. */
  class BinaryTree {
    var data: MemorySlot
    var left: BinaryTree?
    var right: BinaryTree?
    ghost var Repr: set<object>
    ghost var tree: Tree

    ghost predicate Valid()
      reads this, Repr
      decreases Repr
      ensures Valid() ==> this in Repr && data in Repr
    {
      this in Repr && data in Repr && data.slotSize == tree.slotSize &&
      match data.state
      case FREE =>
        left == null && right == null && data.memSize == 0 && tree == Free(data.slotSize)
      case OCCUPIED =>
        left == null && right == null && tree == Occupied(data.slotSize, data.memSize)
      case SPLIT =>
        left != null && right != null && data.memSize == 0 &&
        left in Repr && left.Repr <= Repr && this !in left.Repr && data !in left.Repr && left.Valid() &&
        right in Repr && right.Repr <= Repr && this !in right.Repr && data !in right.Repr && right.Valid() &&
        left.Repr !! right.Repr &&
        tree == Split(data.slotSize, right.tree, left.tree)
    }

    /** createBTree on a fresh free slot. */
    constructor (data: MemorySlot)
      requires data.state == FREE && data.memSize == 0
      ensures Valid() && Repr == {this, data} && this.data == data && tree == Free(data.slotSize)
    {
      this.data := data;
      left := null;
      right := null;
      Repr := {this, data};
      tree := Free(data.slotSize);
    }

    /** splitTree */
    method SplitTree()
      requires Valid() && tree.Free? && tree.slotSize > 1
      modifies Repr
      ensures Valid() && fresh(Repr - old(Repr))
      ensures tree == Split(old(tree.slotSize), Free(old(tree.slotSize) / 2), Free(old(tree.slotSize) / 2))
      ensures data == old(data)
    {
      data.state := SPLIT;
      var memSlotLeft := new MemorySlot(data.slotSize / 2, 0);
      var bTreeLeft := new BinaryTree(memSlotLeft);
      var memSlotRight := new MemorySlot(data.slotSize / 2, 0);
      var bTreeRight := new BinaryTree(memSlotRight);
      left := bTreeLeft;
      right := bTreeRight;
      Repr := Repr + left.Repr + right.Repr;
      tree := Split(data.slotSize, right.tree, left.tree);
    }

    /** allocateMemory; the address 0 is the C NULL. */
    method AllocateMemory(sizeToAdd: nat, currOffset: nat) returns (addr: nat)
      requires Valid() && Shaped(tree) && Answered(tree, sizeToAdd, currOffset) && currOffset > 0
      modifies Repr
      ensures Valid() && fresh(Repr - old(Repr))
      ensures tree == After(old(tree), sizeToAdd, currOffset)
      ensures addr == Grant(old(tree), sizeToAdd, currOffset)
      decreases tree.slotSize, if tree.Free? then 1 else 0, 2
    {
      if sizeToAdd > data.slotSize {
        return 0;
      }
      if data.state == SPLIT {
        addr := AllocateInHalves(sizeToAdd, currOffset);
        return;
      }
      if data.state == FREE {
        if data.slotSize / 2 < sizeToAdd {
          data.memSize := sizeToAdd;
          data.state := OCCUPIED;
          tree := Occupied(data.slotSize, data.memSize);
          return currOffset;
        } else {
          SplitTree();
          assert Alloc(old(tree), sizeToAdd, currOffset) == Alloc(tree, sizeToAdd, currOffset);
          addr := AllocateMemory(sizeToAdd, currOffset);
          return;
        }
      }
      return 0;
    }

    /** The SPLIT branch of allocateMemory: the low half first, then the high half. */
    method AllocateInHalves(sizeToAdd: nat, currOffset: nat) returns (addr: nat)
      requires Valid() && Shaped(tree) && tree.Split? && sizeToAdd <= tree.slotSize && currOffset > 0
      requires Answered(tree, sizeToAdd, currOffset)
      modifies Repr
      ensures Valid() && fresh(Repr - old(Repr))
      ensures tree == After(old(tree), sizeToAdd, currOffset)
      ensures addr == Grant(old(tree), sizeToAdd, currOffset)
      decreases tree.slotSize, 0, 1
    {
      hide Grant, After;
      AllocSplit(tree, sizeToAdd, currOffset);
      addr := AllocateLow(sizeToAdd, currOffset);
      if addr == 0 {
        addr := AllocateHigh(sizeToAdd, currOffset + data.slotSize / 2);
      }
    }

    method AllocateLow(sizeToAdd: nat, currOffset: nat) returns (addr: nat)
      requires Valid() && tree.Split? && Shaped(tree) && Answered(tree.low, sizeToAdd, currOffset) && currOffset > 0
      modifies Repr
      ensures Valid() && fresh(Repr - old(Repr)) && data == old(data)
      ensures tree == old(tree).(low := After(old(tree.low), sizeToAdd, currOffset)) && Shaped(tree)
      ensures addr == Grant(old(tree.low), sizeToAdd, currOffset)
      decreases tree.slotSize, 0, 0
    {
      addr := right.AllocateMemory(sizeToAdd, currOffset);
      Repr := Repr + right.Repr;
      tree := Split(data.slotSize, right.tree, left.tree);
    }

    method AllocateHigh(sizeToAdd: nat, currOffset: nat) returns (addr: nat)
      requires Valid() && tree.Split? && Shaped(tree) && Answered(tree.high, sizeToAdd, currOffset) && currOffset > 0
      modifies Repr
      ensures Valid() && fresh(Repr - old(Repr)) && data == old(data)
      ensures tree == old(tree).(high := After(old(tree.high), sizeToAdd, currOffset))
      ensures addr == Grant(old(tree.high), sizeToAdd, currOffset)
      decreases tree.slotSize, 0, 0
    {
      addr := left.AllocateMemory(sizeToAdd, currOffset);
      Repr := Repr + left.Repr;
      tree := Split(data.slotSize, right.tree, left.tree);
    }

    /** mergeChildren */
    method MergeChildren() returns (code: int)
      requires Valid() && tree.Split?
      modifies Repr
      ensures Valid() && Repr <= old(Repr)
      ensures (tree, code) == Merge(old(tree.slotSize), old(tree.low), old(tree.high))
    {
      if left.data.state == FREE && right.data.state == FREE {
        data.state := FREE;
        left := null;
        right := null;
        Repr := {this, data};
        tree := Free(data.slotSize);
        return 1;
      }
      return 0;
    }

    /** freeMemory */
    method FreeMemory(offset: nat, currOffset: nat, memToFreeOffset: nat) returns (code: int)
      requires Valid()
      modifies Repr
      ensures Valid() && Repr <= old(Repr)
      ensures (tree, code) == Release(old(tree), offset, currOffset, memToFreeOffset)
      decreases tree
    {
      if currOffset < offset {
        return 0;
      }
      if currOffset == memToFreeOffset && data.state == OCCUPIED {
        data.state := FREE;
        data.memSize := 0;
        tree := Free(data.slotSize);
        return 1;
      }
      if data.state == SPLIT {
        var freed: int;
        if memToFreeOffset < data.slotSize / 2 + currOffset {
          freed := right.FreeMemory(offset, currOffset, memToFreeOffset);
        } else {
          freed := left.FreeMemory(offset, currOffset + data.slotSize / 2, memToFreeOffset);
        }
        tree := Split(data.slotSize, right.tree, left.tree);
        if freed == 1 {
          code := MergeChildren();
          return;
        }
        return freed;
      }
      return -1;
    }

    /** calculateInternalFragmentationRec */
    method CalculateInternalFragmentation() returns (unused: int)
      requires Valid()
      ensures unused == InternalFragmentation(tree)
      decreases tree
    {
      if right == null && left == null {
        return data.slotSize - data.memSize;
      }
      var l := left.CalculateInternalFragmentation();
      var r := right.CalculateInternalFragmentation();
      return l + r;
    }
  }

}

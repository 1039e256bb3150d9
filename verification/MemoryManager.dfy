/** memoryManager: up to eight buddy systems over one region, behind requestPages and freePages. */
module MemoryManager {
  import opened Options
  import opened PowersOfTwo
  import opened MathLib
  import opened BuddyTree
  import opened BuddySystem
  import opened MemoryBanks

  /** buddySystemCDT */
  class Buddy {
    const offset: nat
    const memSize: nat
    const root: BinaryTree

    /** startBuddySystem, past its argument checks. */
    constructor (totalMemory: nat, offset: nat)
      requires totalMemory > 0
      ensures this.offset == offset && memSize == Piece(totalMemory)
      ensures root.Valid() && root.tree == Free(memSize) && fresh(root.Repr) && this !in root.Repr
    {
      var size := LowerPowerOf2(totalMemory);
      var totalMemorySlot := new MemorySlot(size, 0);
      this.offset := offset;
      memSize := size;
      root := new BinaryTree(totalMemorySlot);
    }
  }

  /** The buddies in use: valid trees, no two of which share an object. */
  ghost predicate Forest(parts: seq<Buddy>, repr: set<object>)
    reads repr
  {
    (forall i :: 0 <= i < |parts| ==>
       parts[i].root in repr && parts[i].root.Repr <= repr && parts[i].root.Valid() &&
       parts[i].memSize == parts[i].root.tree.slotSize) &&
    (forall i, j :: 0 <= i < j < |parts| ==>
       parts[i].root in repr && parts[j].root in repr && parts[i].root.Repr !! parts[j].root.Repr)
  }

  ghost predicate Describes(banks: seq<Bank>, parts: seq<Buddy>)
    reads set i | 0 <= i < |parts| :: parts[i].root
  {
    |banks| == |parts| &&
    forall i :: 0 <= i < |banks| ==> banks[i] == Bank(parts[i].offset, parts[i].root.tree)
  }

  /** A forest with one tree replaced by another that shares nothing with the rest. */
  lemma OneTreeChanged(parts: seq<Buddy>, banks: seq<Bank>, repr: set<object>, i: nat)
    requires i < |parts| == |banks|
    requires parts[i].root.Valid() && parts[i].memSize == parts[i].root.tree.slotSize
    requires forall j :: 0 <= j < |parts| && j != i ==>
               parts[j].root in repr && parts[j].root.Repr <= repr && parts[j].root.Valid() &&
               parts[j].memSize == parts[j].root.tree.slotSize && parts[j].root.Repr !! parts[i].root.Repr &&
               banks[j] == Bank(parts[j].offset, parts[j].root.tree)
    requires forall j, k :: 0 <= j < k < |parts| && j != i && k != i ==> parts[j].root.Repr !! parts[k].root.Repr
    ensures Forest(parts, repr + parts[i].root.Repr)
    ensures Describes(banks[i := Bank(parts[i].offset, parts[i].root.tree)], parts)
  {
  }

  lemma OneMoreTree(parts: seq<Buddy>, banks: seq<Bank>, repr: set<object>, b: Buddy)
    requires Forest(parts, repr) && Describes(banks, parts)
    requires b.root.Valid() && b.root.Repr !! repr && b.memSize == b.root.tree.slotSize
    ensures Forest(parts + [b], repr + b.root.Repr)
    ensures Describes(banks + [Bank(b.offset, b.root.tree)], parts + [b])
  {
  }

  /** memoryManagerCDT; `parts` are the buddies in use and `banks` what they stand for. */
  class Manager {
    const buddies: array<Buddy?>
    var numBuddies: nat
    ghost var parts: seq<Buddy>
    ghost var banks: seq<Bank>
    ghost var Trees: set<object>

    ghost predicate Valid()
      reads this, buddies, Trees
    {
      this !in Trees && buddies !in Trees && buddies.Length == N_BUDDIES &&
      numBuddies == |parts| <= N_BUDDIES &&
      (forall i :: 0 <= i < numBuddies ==> buddies[i] == parts[i]) &&
      Forest(parts, Trees) && Describes(banks, parts)
    }

    constructor (offset: nat, totalMemory: nat)
      requires offset > 0 && totalMemory > 0 && offset + totalMemory <= ADDRESS_SPACE
      ensures Valid() && fresh(Trees) && fresh(buddies)
      ensures SideBySide(banks, offset) && LiveAll(banks) == {} && forall i :: 0 <= i < |banks| ==> banks[i].tree.Free?
      ensures Sizes(banks) == Pieces(totalMemory, N_BUDDIES)
    {
      buddies := new Buddy?[N_BUDDIES](_ => null);
      numBuddies := 0;
      parts, banks, Trees := [], [], {};
      new;
      StartBuddies(offset, totalMemory);
    }

    method StartBuddies(offset: nat, totalMemory: nat)
      requires Valid() && numBuddies == 0 && Trees == {}
      requires offset > 0 && offset + totalMemory <= ADDRESS_SPACE
      modifies this, buddies
      ensures Valid() && fresh(Trees)
      ensures SideBySide(banks, offset) && LiveAll(banks) == {} && forall i :: 0 <= i < |banks| ==> banks[i].tree.Free?
      ensures Sizes(banks) == Pieces(totalMemory, N_BUDDIES)
    {
      hide Plans, SideBySide, Sizes, Pieces, LiveAll, Piece;
      ghost var stages, plan := WholePlan(offset, totalMemory, N_BUDDIES);
      PlanFits(stages, plan);
      var offsetAcum: nat := offset;
      var remainingSize: nat := totalMemory;
      while numBuddies < N_BUDDIES && remainingSize > 0
        invariant Valid() && fresh(Trees)
        invariant numBuddies <= |plan| && banks == plan[..numBuddies]
        invariant Stage(offsetAcum, remainingSize) == stages[numBuddies]
      {
        PlanRound(stages, plan, numBuddies);
        assert plan[..numBuddies + 1] == plan[..numBuddies] + [plan[numBuddies]];
        var powerOf2 := StartOne(remainingSize, offsetAcum);
        remainingSize := remainingSize - powerOf2;
        offsetAcum := offsetAcum + powerOf2;
      }
      PlanOver(stages, plan, numBuddies);
      assert plan[..numBuddies] == plan;
    }

    /** The body of the loop of startBuddies: start one more buddy on the largest power that fits. */
    method StartOne(remainingSize: nat, offsetAcum: nat) returns (powerOf2: nat)
      requires Valid() && numBuddies < N_BUDDIES && remainingSize > 0
      modifies this, buddies
      ensures Valid() && fresh(Trees - old(Trees)) && numBuddies == old(numBuddies) + 1
      ensures powerOf2 == Piece(remainingSize)
      ensures banks == old(banks) + [Bank(offsetAcum, Free(powerOf2))]
    {
      var buddy := new Buddy(remainingSize, offsetAcum);
      powerOf2 := LowerPowerOf2(remainingSize);
      Append(buddy);
    }

    method Append(buddy: Buddy)
      requires Valid() && numBuddies < N_BUDDIES
      requires buddy.root.Valid() && buddy.memSize == buddy.root.tree.slotSize
      requires buddy.root.Repr !! Trees && this !in buddy.root.Repr && buddies !in buddy.root.Repr
      modifies this, buddies
      ensures Valid() && Trees == old(Trees) + buddy.root.Repr && numBuddies == old(numBuddies) + 1
      ensures banks == old(banks) + [Bank(buddy.offset, buddy.root.tree)]
    {
      OneMoreTree(parts, banks, Trees, buddy);
      buddies[numBuddies] := buddy;
      Trees := Trees + buddy.root.Repr;
      parts := parts + [buddy];
      banks := banks + [Bank(buddy.offset, buddy.root.tree)];
      numBuddies := numBuddies + 1;
    }

    /** requestPages */
    method RequestPages(memSize: nat) returns (ret: nat)
      requires Valid() && memSize >= 1 && Usable(banks)
      modifies this`banks, this`Trees, Trees
      ensures Valid() && fresh(Trees - old(Trees)) && parts == old(parts)
      ensures (banks, ret) == Request(old(banks), memSize, |old(banks)|)
    {
      hide Request, Grant, After;
      RequestNowhere(banks, memSize);
      ret := 0;
      var i := numBuddies - 1;
      while i >= 0
        invariant -1 <= i < numBuddies
        invariant Valid() && fresh(Trees - old(Trees)) && banks == old(banks)
        invariant ret == 0
        invariant Request(banks, memSize, |banks|) == Request(banks, memSize, i + 1)
      {
        RequestAt(banks, memSize, i);
        if buddies[i].memSize >= memSize {
          ret := AllocateIn(i, memSize);
          if ret != 0 {
            return;
          }
        }
        i := i - 1;
      }
    }

    /** One allocateMemory call of requestPages, on the root of buddy i. */
    method AllocateIn(i: nat, memSize: nat) returns (ret: nat)
      requires Valid() && memSize >= 1 && i < numBuddies && Shaped(banks[i].tree) && banks[i].offset > 0
      modifies this`banks, this`Trees, Trees
      ensures Valid() && fresh(Trees - old(Trees)) && parts == old(parts)
      ensures ret == Grant(old(banks[i].tree), memSize, old(banks[i].offset))
      ensures var b := old(banks)[i]; banks == old(banks)[i := Bank(b.offset, After(b.tree, memSize, b.offset))]
    {
      ret := buddies[i].root.AllocateMemory(memSize, buddies[i].offset);
      OneTreeChanged(parts, banks, Trees, i);
      Trees := Trees + buddies[i].root.Repr;
      banks := banks[i := Bank(buddies[i].offset, buddies[i].root.tree)];
    }

    /** freePages */
    method FreePages(address: nat)
      requires Valid() && address < ADDRESS_SPACE
      modifies this`banks, Trees
      ensures Valid() && Trees == old(Trees) && parts == old(parts)
      ensures banks == ReleaseIn(old(banks), address, 0)
    {
      var i := 0;
      while i < numBuddies
        invariant 0 <= i <= numBuddies
        invariant Valid() && Trees == old(Trees) && banks == old(banks)
        invariant ReleaseIn(banks, address, 0) == ReleaseIn(banks, address, i)
      {
        var index := WrappingDifference(address, buddies[i].offset);
        if index < buddies[i].memSize {
          var code := FreeIn(i, address);
          return;
        }
        i := i + 1;
      }
    }

    /** One freeMemory call of freePages, on the root of buddy i. */
    method FreeIn(i: nat, address: nat) returns (code: int)
      requires Valid() && i < numBuddies
      modifies this`banks, Trees
      ensures Valid() && Trees == old(Trees) && parts == old(parts)
      ensures var b := old(banks)[i];
              var (t, c) := Release(b.tree, b.offset, b.offset, address);
              code == c && banks == old(banks)[i := Bank(b.offset, t)]
    {
      code := buddies[i].root.FreeMemory(buddies[i].offset, buddies[i].offset, address);
      OneTreeChanged(parts, banks, Trees, i);
      assert Trees + parts[i].root.Repr == Trees;
      banks := banks[i := Bank(buddies[i].offset, buddies[i].root.tree)];
    }
  }

  /** startMemoryManager: nothing without an offset or without memory. */
  method StartMemoryManager(offset: nat, totalMemory: nat) returns (m: Manager?)
    requires offset + totalMemory <= ADDRESS_SPACE
    ensures m == null <==> offset == 0 || totalMemory == 0
    ensures m != null ==>
              m.Valid() && fresh(m) && SideBySide(m.banks, offset) &&
              Sizes(m.banks) == Pieces(totalMemory, N_BUDDIES) &&
              LiveAll(m.banks) == {} && forall i :: 0 <= i < |m.banks| ==> m.banks[i].tree.Free?
  {
    if offset == 0 || totalMemory == 0 {
      return null;
    }
    m := new Manager(offset, totalMemory);
  }

  /** Address 0 comes back exactly when the tree refused, and then it is unchanged. */
  lemma NullMeansUnchanged(t: Tree, need: nat, base: nat)
    requires Shaped(t) && need >= 1 && base > 0
    ensures Grant(t, need, base) == 0 <==> Alloc(t, need, base).1 == None
    ensures Grant(t, need, base) == 0 ==> After(t, need, base) == t
  {
    if Alloc(t, need, base).1.Some? {
      AllocInRange(t, need, base);
    } else {
      AllocFailureFrame(t, need, base);
    }
  }

  /** One round of requestPages, in terms of the address the code compares with NULL. */
  lemma RequestAt(banks: seq<Bank>, need: nat, i: nat)
    requires Usable(banks) && need >= 1 && i < |banks|
    ensures var b := banks[i];
            if b.tree.slotSize >= need && Grant(b.tree, need, b.offset) != 0
            then Request(banks, need, i + 1) ==
                 (banks[i := Bank(b.offset, After(b.tree, need, b.offset))], Grant(b.tree, need, b.offset))
            else Request(banks, need, i + 1) == Request(banks, need, i) &&
                 banks[i := Bank(b.offset, After(b.tree, need, b.offset))] == banks
  {
    NullMeansUnchanged(banks[i].tree, need, banks[i].offset);
    if banks[i].tree.slotSize < need {
      assert After(banks[i].tree, need, banks[i].offset) == banks[i].tree;
    }
  }

  lemma RequestNowhere(banks: seq<Bank>, need: nat)
    requires Usable(banks) && need >= 1
    ensures Request(banks, need, 0) == (banks, 0)
  {
  }

  function Sizes(banks: seq<Bank>): (s: seq<nat>)
    ensures |s| == |banks|
  {
    seq(|banks|, i requires 0 <= i < |banks| => banks[i].tree.slotSize)
  }

  /** Where the loop of startBuddies stands before a round: the next offset and the size left. */
  datatype Stage = Stage(offset: nat, rest: nat)

  /** After a round that takes the largest power of two that fits. */
  function NextStage(s: Stage): Stage
    requires s.rest > 0
  {
    Stage(s.offset + Piece(s.rest), s.rest - Piece(s.rest))
  }

  /** The rounds of startBuddies: `plan[k]` is started at `stages[k]`. */
  ghost predicate Plans(stages: seq<Stage>, plan: seq<Bank>) {
    |stages| == |plan| + 1 &&
    forall k {:trigger plan[k]} :: 0 <= k < |plan| ==>
      stages[k].rest > 0 && plan[k] == Bank(stages[k].offset, Free(Piece(stages[k].rest))) &&
      stages[k + 1] == NextStage(stages[k])
  }

  ghost function StagesFrom(offset: nat, total: nat, n: nat): (s: seq<Stage>)
    ensures |s| > 0 && s[0] == Stage(offset, total)
    decreases n
  {
    if n == 0 || total == 0 then [Stage(offset, total)]
    else [Stage(offset, total)] + StagesFrom(offset + Piece(total), total - Piece(total), n - 1)
  }

  ghost function PlanFrom(offset: nat, total: nat, n: nat): (plan: seq<Bank>)
    ensures |plan| <= n && forall k :: 0 <= k < |plan| ==> plan[k].tree.Free?
    decreases n
  {
    if n == 0 || total == 0 then []
    else [Bank(offset, Free(Piece(total)))] + PlanFrom(offset + Piece(total), total - Piece(total), n - 1)
  }

  /** The rounds follow the plan until it is complete or nothing is left. */
  lemma {:induction false} PlanRuns(offset: nat, total: nat, n: nat)
    ensures Plans(StagesFrom(offset, total, n), PlanFrom(offset, total, n))
    ensures |StagesFrom(offset, total, n)| == |PlanFrom(offset, total, n)| + 1
    ensures var plan := PlanFrom(offset, total, n); |plan| == n || StagesFrom(offset, total, n)[|plan|].rest == 0
    decreases n
  {
    hide Piece;
    if n > 0 && total > 0 {
      var p := Piece(total);
      PlanRuns(offset + p, total - p, n - 1);
      hide Plans;
      var stages, plan := StagesFrom(offset + p, total - p, n - 1), PlanFrom(offset + p, total - p, n - 1);
      ConsPlans(Stage(offset, total), stages, plan);
      assert ([Stage(offset, total)] + stages)[|plan| + 1] == stages[|plan|];
    }
  }

  /** Everything about the n rounds of startBuddies at once. */
  lemma WholePlan(offset: nat, total: nat, n: nat) returns (stages: seq<Stage>, plan: seq<Bank>)
    requires offset + total <= ADDRESS_SPACE
    ensures Plans(stages, plan) && |plan| <= n && stages[0] == Stage(offset, total)
    ensures forall k :: 0 <= k < |plan| ==> plan[k].tree.Free?
    ensures |plan| == n || stages[|plan|].rest == 0
    ensures SideBySide(plan, offset) && LiveAll(plan) == {} && Sizes(plan) == Pieces(total, n)
  {
    stages, plan := StagesFrom(offset, total, n), PlanFrom(offset, total, n);
    PlanRuns(offset, total, n);
    PlanIsContiguous(offset, total, n);
    PlanSizes(offset, total, n);
    NothingGrantedYet(plan);
  }

  /** The planned banks lie side by side. */
  lemma {:induction false} PlanIsContiguous(offset: nat, total: nat, n: nat)
    requires offset + total <= ADDRESS_SPACE
    ensures SideBySide(PlanFrom(offset, total, n), offset)
    decreases n
  {
    hide SideBySide, Piece;
    if n == 0 || total == 0 {
      NothingIsContiguous(offset);
    } else {
      var p := Piece(total);
      PlanIsContiguous(offset + p, total - p, n - 1);
      ConsContiguous(Bank(offset, Free(p)), PlanFrom(offset + p, total - p, n - 1), offset);
    }
  }

  /** Their sizes are the decomposition of the total. */
  lemma {:induction false} PlanSizes(offset: nat, total: nat, n: nat)
    ensures Sizes(PlanFrom(offset, total, n)) == Pieces(total, n)
    decreases n
  {
    hide Piece;
    if n > 0 && total > 0 {
      var p := Piece(total);
      PlanSizes(offset + p, total - p, n - 1);
      hide Sizes;
      ConsSizes(Bank(offset, Free(p)), PlanFrom(offset + p, total - p, n - 1));
    }
  }

  lemma ConsSizes(b: Bank, rest: seq<Bank>)
    ensures Sizes([b] + rest) == [b.tree.slotSize] + Sizes(rest)
  {
  }

  lemma PlanFits(stages: seq<Stage>, plan: seq<Bank>)
    requires Plans(stages, plan)
    ensures |stages| == |plan| + 1
  {
  }

  lemma ConsPlans(first: Stage, stages: seq<Stage>, plan: seq<Bank>)
    requires Plans(stages, plan) && first.rest > 0
    requires stages[0] == NextStage(first)
    ensures Plans([first] + stages, [Bank(first.offset, Free(Piece(first.rest)))] + plan)
  {
    var stages', plan' := [first] + stages, [Bank(first.offset, Free(Piece(first.rest)))] + plan;
    forall k | 0 <= k < |plan'|
      ensures stages'[k].rest > 0 && plan'[k] == Bank(stages'[k].offset, Free(Piece(stages'[k].rest)))
      ensures stages'[k + 1] == NextStage(stages'[k])
    {
      if k > 0 {
        assert plan'[k] == plan[k - 1] && stages'[k] == stages[k - 1] && stages'[k + 1] == stages[k];
      }
    }
  }

  /** Round k of a plan: it takes place, with something left to hand out. */
  lemma PlanRound(stages: seq<Stage>, plan: seq<Bank>, k: nat)
    requires Plans(stages, plan) && k <= |plan| && (k == |plan| ==> |plan| < N_BUDDIES && stages[k].rest > 0)
    requires |plan| == N_BUDDIES || stages[|plan|].rest == 0
    ensures k < |plan| && stages[k].rest > 0 && plan[k] == Bank(stages[k].offset, Free(Piece(stages[k].rest)))
    ensures stages[k + 1] == NextStage(stages[k])
  {
    assert k < |plan| && plan[k].tree.Free?;
  }

  lemma PlanOver(stages: seq<Stage>, plan: seq<Bank>, k: nat)
    requires Plans(stages, plan) && k <= |plan| <= N_BUDDIES && (k == N_BUDDIES || stages[k].rest == 0)
    ensures k == |plan|
  {
    if k < |plan| {
      RoundHasRest(stages, plan, k);
    }
  }

  lemma RoundHasRest(stages: seq<Stage>, plan: seq<Bank>, k: nat)
    requires Plans(stages, plan) && k < |plan|
    ensures stages[k].rest > 0
  {
    assert plan[k].tree.Free?;
  }

  lemma NothingIsContiguous(base: nat)
    ensures SideBySide([], base)
  {
  }

  lemma ConsContiguous(b: Bank, banks: seq<Bank>, base: nat)
    requires b.offset == base && b.tree.slotSize > 0 && End(b) <= ADDRESS_SPACE && SideBySide(banks, End(b))
    ensures SideBySide([b] + banks, base)
  {
    var all := [b] + banks;
    forall i | 0 <= i < |all| ensures all[i].offset >= base && End(all[i]) <= ADDRESS_SPACE {
      assert i > 0 ==> all[i] == banks[i - 1];
    }
    forall i, j | 0 <= i < j < |all| && j == i + 1 ensures all[j].offset == End(all[i]) {
      assert all[j] == banks[j - 1] && (i > 0 ==> all[i] == banks[i - 1]);
    }
  }

  lemma NothingGrantedYet(banks: seq<Bank>)
    requires forall i :: 0 <= i < |banks| ==> banks[i].tree.Free?
    ensures LiveAll(banks) == {}
  {
  }

  // ---------------------------------------------------------------- when the pieces are the regions

  /** The sizes startBuddies hands out. */
  ghost function Pieces(total: nat, n: nat): (s: seq<nat>)
    ensures |s| <= n
    decreases n
  {
    if n == 0 || total == 0 then [] else [Piece(total)] + Pieces(total - Piece(total), n - 1)
  }

  /** Exactly when startBuddies cuts the region into the decomposition it means to: when the first cut is right. */
  lemma {:induction false} PiecesAreRegionsIff(total: nat, n: nat)
    requires total > 0 && n > 0
    ensures Pieces(total, n) == Regions(total, n) <==> Covered(total)
    decreases n
  {
    hide Piece;
    var p := Piece(total);
    PieceIsRoundDownIff(total);
    if Covered(total) {
      CoveredRest(total);
      if n > 1 && total > p {
        PiecesAreRegionsIff(total - p, n - 1);
      }
    } else {
      assert Pieces(total, n)[0] == p && Regions(total, n)[0] == RoundDown(total);
    }
  }

  /** Buddies started side by side on those sizes are well-formed, so everything proved about banks applies. */
  lemma StartedIsContiguous(banks: seq<Bank>, base: nat, total: nat)
    requires total > 0 && Covered(total) && SideBySide(banks, base) && Sizes(banks) == Pieces(total, N_BUDDIES)
    requires forall i :: 0 <= i < |banks| ==> banks[i].tree.Free?
    ensures Contiguous(banks, base)
  {
    PiecesAreRegionsIff(total, N_BUDDIES);
    RegionsDecrease(total, N_BUDDIES);
    forall i | 0 <= i < |banks| ensures WellFormed(banks[i].tree) {
      assert Sizes(banks)[i] == banks[i].tree.slotSize;
    }
  }
}

/**
 * The process table: pids are reused in circular order and child lists may name pids that died or were
 * reborn since. Ghost birth stamps show that following child lists always terminates.
 */
module ProcessTable {
  import opened Scheduler

  const PID_ERROR: int := -1
  const MAX_CHILDREN := 50

  /** The part of a pcb that the family operations use; `children` are its first childrenCount slots. */
  datatype Proc = Proc(state: PState, ppid: int, children: seq<Pid>)

  predicate Reusable(st: PState) {
    st.UN_BORN? || st.DEAD?
  }

  // ---------------------------------------------------------------- circular order

  /** The pid after p in 1..max, in circular order. */
  function Next(p: nat, max: nat): nat
    requires max > 0
  {
    p % max + 1
  }

  /** How many steps after start the pid p comes, in 1..max. */
  function Distance(start: nat, p: nat, max: nat): int {
    if p >= start then p - start else p - start + max
  }

  lemma NextIsFurther(start: nat, p: nat, max: nat)
    requires 1 <= start <= max && 1 <= p <= max
    ensures 1 <= Next(p, max) <= max
    ensures Next(p, max) != start ==> Distance(start, Next(p, max), max) == Distance(start, p, max) + 1
    ensures Next(p, max) == start ==> Distance(start, p, max) == max - 1
  {
    if p == max {
      assert p % max == 0;
    } else {
      assert p % max == p;
    }
  }

  // ---------------------------------------------------------------- families

  /** The children that killAllDescendants follows: none for a process that does not exist. */
  function Kids(procs: seq<Proc>): (k: seq<seq<Pid>>)
    ensures |k| == |procs|
  {
    seq(|procs|, p requires 0 <= p < |procs| => if procs[p].state.UN_BORN? then [] else procs[p].children)
  }

  /** Every child was born after the process whose list names it. */
  ghost predicate Rising(kids: seq<seq<Pid>>, birth: seq<nat>, clock: nat) {
    |birth| == |kids| && (forall p :: 0 <= p < |kids| ==> birth[p] < clock) &&
    forall p, i :: 0 <= p < |kids| && 0 <= i < |kids[p]| ==> kids[p][i] < |kids| && birth[p] < birth[kids[p][i]]
  }

  /** q is reached from p by following one or more child lists. */
  ghost predicate Below(kids: seq<seq<Pid>>, birth: seq<nat>, clock: nat, p: Pid, q: Pid)
    requires Rising(kids, birth, clock) && p < |kids|
    decreases clock - birth[p]
  {
    exists i :: 0 <= i < |kids[p]| && (kids[p][i] == q || Below(kids, birth, clock, kids[p][i], q))
  }

  /** Nobody is his own descendant. */
  lemma {:induction false} BelowIsYounger(kids: seq<seq<Pid>>, birth: seq<nat>, clock: nat, p: Pid, q: Pid)
    requires Rising(kids, birth, clock) && p < |kids| && Below(kids, birth, clock, p, q)
    ensures q < |kids| && birth[p] < birth[q]
    decreases clock - birth[p]
  {
    var i :| 0 <= i < |kids[p]| && (kids[p][i] == q || Below(kids, birth, clock, kids[p][i], q));
    if kids[p][i] != q {
      BelowIsYounger(kids, birth, clock, kids[p][i], q);
    }
  }

  /** The states after killing everything in `dead`. */
  ghost predicate KilledExactly(before: seq<Proc>, after: seq<Proc>, dead: iset<Pid>) {
    |after| == |before| &&
    forall q :: 0 <= q < |before| ==>
      after[q] == if q in dead && !before[q].state.UN_BORN? then before[q].(state := DEAD) else before[q]
  }

  /** The order in which killAllDescendants(p) kills: below each child first, then the child. */
  ghost function Order(kids: seq<seq<Pid>>, birth: seq<nat>, clock: nat, p: Pid): seq<Pid>
    requires Rising(kids, birth, clock) && p < |kids|
    decreases clock - birth[p], |kids[p]| + 1
  {
    OrderOf(kids, birth, clock, p, |kids[p]|)
  }

  /** The same for the first n children of p. */
  ghost function OrderOf(kids: seq<seq<Pid>>, birth: seq<nat>, clock: nat, p: Pid, n: nat): seq<Pid>
    requires Rising(kids, birth, clock) && p < |kids| && n <= |kids[p]|
    decreases clock - birth[p], n
  {
    if n == 0 then []
    else
      var c := kids[p][n - 1];
      OrderOf(kids, birth, clock, p, n - 1) + (Order(kids, birth, clock, c) + [c])
  }

  /** What is killed is what is reached through child lists. */
  lemma {:induction false} OrderIsBelow(kids: seq<seq<Pid>>, birth: seq<nat>, clock: nat, p: Pid, q: Pid)
    requires Rising(kids, birth, clock) && p < |kids|
    ensures q in Order(kids, birth, clock, p) <==> Below(kids, birth, clock, p, q)
    decreases clock - birth[p], |kids[p]| + 1
  {
    OrderOfIsBelow(kids, birth, clock, p, |kids[p]|, q);
  }

  lemma {:induction false} OrderOfIsBelow(kids: seq<seq<Pid>>, birth: seq<nat>, clock: nat, p: Pid, n: nat, q: Pid)
    requires Rising(kids, birth, clock) && p < |kids| && n <= |kids[p]|
    ensures q in OrderOf(kids, birth, clock, p, n) <==>
            exists i :: 0 <= i < n && (kids[p][i] == q || Below(kids, birth, clock, kids[p][i], q))
    decreases clock - birth[p], n
  {
    if n > 0 {
      OrderOfIsBelow(kids, birth, clock, p, n - 1, q);
      OrderIsBelow(kids, birth, clock, kids[p][n - 1], q);
    }
  }

  /** The kills up to the one that halts the caller, if it comes. */
  function Until(order: seq<Pid>, caller: Pid): seq<Pid> {
    if order == [] then []
    else if order[0] == caller then [caller]
    else [order[0]] + Until(order[1..], caller)
  }

  lemma {:induction false} UntilConcat(a: seq<Pid>, b: seq<Pid>, caller: Pid)
    ensures Until(a + b, caller) == if caller in a then Until(a, caller) else a + Until(b, caller)
  {
    if a == [] {
      assert a + b == b && [] + Until(b, caller) == Until(b, caller);
    } else {
      var rest := a[1..];
      assert (a + b)[0] == a[0] && (a + b)[1..] == rest + b;
      if a[0] != caller {
        UntilConcat(rest, b, caller);
        assert caller in a <==> caller in rest by {
          assert a == [a[0]] + rest;
        }
        if caller !in rest {
          assert [a[0]] + (rest + Until(b, caller)) == a + Until(b, caller);
        }
      }
    }
  }

  /** A caller that is not reached lets every kill happen. */
  lemma UntilEnd(order: seq<Pid>, caller: Pid)
    requires caller !in order
    ensures Until(order, caller) == order
  {
    UntilConcat(order, [], caller);
    assert order + [] == order;
  }

  lemma UntilOne(p: Pid, caller: Pid)
    ensures Until([p], caller) == [p]
  {
  }

  ghost function Set(s: seq<Pid>): iset<Pid> {
    iset q: Pid | q in s
  }

  lemma OneKilled(before: seq<Proc>, after: seq<Proc>, p: Pid)
    requires p < |before|
    requires after == if before[p].state.UN_BORN? then before else before[p := before[p].(state := DEAD)]
    ensures KilledExactly(before, after, Set([p]))
  {
  }

  lemma NoneKilled(before: seq<Proc>, kids: seq<seq<Pid>>, birth: seq<nat>, clock: nat, p: Pid, caller: Pid)
    requires Rising(kids, birth, clock) && p < |kids|
    ensures KilledExactly(before, before, Set(OrderOf(kids, birth, clock, p, 0)))
    ensures OrderOf(kids, birth, clock, p, 0) == [] && Until([], caller) == []
    ensures Order(kids, birth, clock, p) == OrderOf(kids, birth, clock, p, |kids[p]|)
  {
  }

  /** Once the caller is among the first n, the rest of the order does not matter. */
  lemma {:induction false} PrefixUntil(kids: seq<seq<Pid>>, birth: seq<nat>, clock: nat, p: Pid, n: nat, caller: Pid)
    requires Rising(kids, birth, clock) && p < |kids| && n <= |kids[p]|
    requires caller in OrderOf(kids, birth, clock, p, n)
    ensures caller in Order(kids, birth, clock, p)
    ensures Until(Order(kids, birth, clock, p), caller) == Until(OrderOf(kids, birth, clock, p, n), caller)
    decreases |kids[p]| - n
  {
    if n < |kids[p]| {
      var c := kids[p][n];
      UntilConcat(OrderOf(kids, birth, clock, p, n), Order(kids, birth, clock, c) + [c], caller);
      PrefixUntil(kids, birth, clock, p, n + 1, caller);
    }
  }

  /** Killing one list after another kills both. */
  lemma KillBoth(before: seq<Proc>, mid: seq<Proc>, after: seq<Proc>, a: seq<Pid>, b: seq<Pid>)
    requires KilledExactly(before, mid, Set(a)) && KilledExactly(mid, after, Set(b))
    ensures KilledExactly(before, after, Set(a + b))
  {
  }

  /** One round of killAllDescendants: the caller is hit within the branch, or the branch is killed. */
  lemma BranchKilled(kids: seq<seq<Pid>>, birth: seq<nat>, clock: nat, p: Pid, i: nat, caller: Pid,
                     before: seq<Proc>, mid: seq<Proc>, after: seq<Proc>)
    requires Rising(kids, birth, clock) && p < |kids| && i < |kids[p]| && caller !in OrderOf(kids, birth, clock, p, i)
    requires KilledExactly(before, mid, Set(OrderOf(kids, birth, clock, p, i)))
    requires var c := kids[p][i]; KilledExactly(mid, after, Set(Until(Order(kids, birth, clock, c) + [c], caller)))
    ensures var c := kids[p][i];
            if caller in Order(kids, birth, clock, c) + [c] then
              caller in Order(kids, birth, clock, p) &&
              KilledExactly(before, after, Set(Until(Order(kids, birth, clock, p), caller)))
            else
              caller !in OrderOf(kids, birth, clock, p, i + 1) &&
              KilledExactly(before, after, Set(OrderOf(kids, birth, clock, p, i + 1)))
  {
    hide KilledExactly;
    var killed, branch := OrderOf(kids, birth, clock, p, i), Order(kids, birth, clock, kids[p][i]) + [kids[p][i]];
    KillBoth(before, mid, after, killed, Until(branch, caller));
    UntilConcat(killed, branch, caller);
    if caller in branch {
      PrefixUntil(kids, birth, clock, p, i + 1, caller);
    } else {
      UntilEnd(branch, caller);
    }
  }

  // ---------------------------------------------------------------- a child in a list

  /** Slot i is the first that is empty or stale, and the child is in it now. */
  predicate SlotIs(procs: seq<Proc>, kids: seq<Pid>, kids': seq<Pid>, child: Pid, i: nat) {
    i <= |kids| && (forall j :: 0 <= j < |kids| ==> kids[j] < |procs|) &&
    (forall j :: 0 <= j < i ==> !Reusable(procs[kids[j]].state)) &&
    if i < |kids| then Reusable(procs[kids[i]].state) && kids' == kids[i := child] else kids' == kids + [child]
  }

  ghost predicate TakesSlot(procs: seq<Proc>, kids: seq<Pid>, kids': seq<Pid>, child: Pid) {
    exists i: nat :: SlotIs(procs, kids, kids', child, i)
  }

  /** Taking a slot: the child is listed, living children keep theirs, and nobody else comes in. The list
      only grows when no entry of it is stale. */
  lemma TakesSlotFacts(procs: seq<Proc>, kids: seq<Pid>, kids': seq<Pid>, child: Pid)
    requires TakesSlot(procs, kids, kids', child)
    ensures child in kids' && forall q :: q in kids' ==> q == child || q in kids
    ensures forall q :: q in kids ==> q < |procs| && (Reusable(procs[q].state) || q in kids')
    ensures if exists q :: q in kids && Reusable(procs[q].state) then |kids'| == |kids| else kids' == kids + [child]
  {
    var i: nat :| SlotIs(procs, kids, kids', child, i);
    if i < |kids| {
      assert kids[i] in kids;
      ReplacedSlot(kids, i, child);
    }
  }

  /** The entries that name living processes. */
  function Living(procs: seq<Proc>, kids: seq<Pid>): (n: nat)
    requires forall i :: 0 <= i < |kids| ==> kids[i] < |procs|
    ensures n <= |kids|
  {
    if kids == [] then 0
    else Living(procs, kids[..|kids| - 1]) + if Reusable(procs[kids[|kids| - 1]].state) then 0 else 1
  }

  /** How many children a list still takes: a full one none, even if entries are stale. */
  function Room(procs: seq<Proc>, kids: seq<Pid>): nat
    requires |kids| <= MAX_CHILDREN && forall i :: 0 <= i < |kids| ==> kids[i] < |procs|
  {
    if |kids| == MAX_CHILDREN then 0 else MAX_CHILDREN - Living(procs, kids)
  }

  lemma LivingAppend(procs: seq<Proc>, kids: seq<Pid>, child: Pid)
    requires child < |procs| && forall i :: 0 <= i < |kids| ==> kids[i] < |procs|
    ensures Living(procs, kids + [child]) == Living(procs, kids) + if Reusable(procs[child].state) then 0 else 1
    ensures Living(procs, []) == 0
  {
    assert (kids + [child])[..|kids|] == kids;
  }

  /** A living entry behind a prefix counts beyond it. */
  lemma {:induction false} LivingPrefix(procs: seq<Proc>, kids: seq<Pid>, k: nat)
    requires k < |kids| && (forall i :: 0 <= i < |kids| ==> kids[i] < |procs|) && !Reusable(procs[kids[k]].state)
    ensures Living(procs, kids[..k]) < Living(procs, kids)
  {
    var last := |kids| - 1;
    if k < last {
      assert kids[..last][..k] == kids[..k];
      LivingPrefix(procs, kids[..last], k);
    }
  }

  lemma {:induction false} LivingUpdate(procs: seq<Proc>, kids: seq<Pid>, i: nat, child: Pid)
    requires i < |kids| && child < |procs| && forall j :: 0 <= j < |kids| ==> kids[j] < |procs|
    requires Reusable(procs[kids[i]].state) && !Reusable(procs[child].state)
    ensures Living(procs, kids[i := child]) == Living(procs, kids) + 1
  {
    var last := |kids| - 1;
    if i < last {
      assert kids[i := child][..last] == kids[..last][i := child];
      LivingUpdate(procs, kids[..last], i, child);
    } else {
      assert kids[i := child][..last] == kids[..last];
    }
  }

  lemma {:induction false} LivingSame(procs: seq<Proc>, procs': seq<Proc>, kids: seq<Pid>)
    requires |procs'| == |procs| && forall i :: 0 <= i < |kids| ==> kids[i] < |procs|
    requires forall i :: 0 <= i < |kids| ==> procs'[kids[i]].state == procs[kids[i]].state
    ensures Living(procs', kids) == Living(procs, kids)
  {
    if kids != [] {
      LivingSame(procs, procs', kids[..|kids| - 1]);
    }
  }

  lemma {:induction false} AllLiving(procs: seq<Proc>, kids: seq<Pid>)
    requires forall i :: 0 <= i < |kids| ==> kids[i] < |procs| && !Reusable(procs[kids[i]].state)
    ensures Living(procs, kids) == |kids|
  {
    if kids != [] {
      AllLiving(procs, kids[..|kids| - 1]);
    }
  }

  lemma RoomFacts(procs: seq<Proc>, kids: seq<Pid>)
    requires |kids| <= MAX_CHILDREN && forall i :: 0 <= i < |kids| ==> kids[i] < |procs|
    ensures Room(procs, kids) == 0 <==> |kids| == MAX_CHILDREN
  {
  }

  lemma RoomSame(procs: seq<Proc>, procs': seq<Proc>, kids: seq<Pid>)
    requires |kids| <= MAX_CHILDREN && |procs'| == |procs| && forall i :: 0 <= i < |kids| ==> kids[i] < |procs|
    requires forall i :: 0 <= i < |kids| ==> procs'[kids[i]].state == procs[kids[i]].state
    ensures Room(procs', kids) == Room(procs, kids)
  {
    LivingSame(procs, procs', kids);
  }

  /** A list that took a living child takes one less. */
  lemma TakingUsesRoom(procs: seq<Proc>, kids: seq<Pid>, kids': seq<Pid>, child: Pid)
    requires TakesSlot(procs, kids, kids', child) && |kids| < MAX_CHILDREN
    requires child < |procs| && !Reusable(procs[child].state)
    ensures forall i :: 0 <= i < |kids'| ==> kids'[i] < |procs|
    ensures Room(procs, kids) > 0 && |kids'| <= MAX_CHILDREN && Room(procs, kids') == Room(procs, kids) - 1
  {
    var i: nat :| SlotIs(procs, kids, kids', child, i);
    if i < |kids| {
      LivingUpdate(procs, kids, i, child);
    } else {
      AllLiving(procs, kids);
      assert kids'[..|kids|] == kids;
    }
  }

  /** What procsDeathCleanUp leaves after the children in `list`: a living one is under the genesis process if
      it is among the first k entries, dead if it is among the others; and everybody else is as before. */
  ghost predicate HandedOn(before: seq<Proc>, after: seq<Proc>, proc: Pid, list: seq<Pid>, k: nat) {
    0 < |before| == |after| && k <= |list| &&
    after[INIT_PID] == before[INIT_PID].(children := after[INIT_PID].children) &&
    (forall q :: q in before[INIT_PID].children && q < |after| && !Reusable(after[q].state) ==>
       q in after[INIT_PID].children) &&
    forall q :: 0 < q < |after| && q != proc ==>
      if q in list && !Reusable(before[q].state)
      then
        var was := if q in list[..k] then before[q].(ppid := INIT_PID) else before[q];
        after[q] == (if q in list[k..] then was.(state := DEAD) else was) &&
        (q !in list[k..] ==> q in after[INIT_PID].children)
      else after[q] == before[q]
  }

  lemma NothingHandedOn(before: seq<Proc>, proc: Pid)
    requires before != []
    ensures HandedOn(before, before, proc, [], 0) && Living(before, []) == 0
  {
  }

  /** One child more. */
  lemma NextHandedOn(before: seq<Proc>, mid: seq<Proc>, after: seq<Proc>, proc: Pid, list: seq<Pid>, child: Pid, k: nat)
    returns (k': nat)
    requires HandedOn(before, mid, proc, list, k) && INIT_PID < child < |mid| == |after| && child != proc
    requires forall q :: q in mid[INIT_PID].children && q < |after| && !Reusable(after[q].state) ==>
               q in after[INIT_PID].children
    requires if Reusable(mid[child].state) then after == mid
             else if after[child] == mid[child].(state := DEAD) then after == mid[child := after[child]]
             else k == |list| && child in after[INIT_PID].children &&
                  after == mid[INIT_PID := mid[INIT_PID].(children := after[INIT_PID].children)]
                              [child := mid[child].(ppid := INIT_PID)]
    ensures HandedOn(before, after, proc, list + [child], k')
    ensures k == |list| ==> (Reusable(mid[child].state) <==> Reusable(before[child].state))
    ensures k' == if k < |list| then k
                  else if !Reusable(mid[child].state) && after[child].state.DEAD? then |list| else |list| + 1
  {
    k' := if k < |list| then k
          else if !Reusable(mid[child].state) && after[child].state.DEAD? then |list| else |list| + 1;
    var list' := list + [child];
    assert forall q :: q in list' <==> q in list || q == child;
    assert k < |list| ==> list'[..k'] == list[..k] && list'[k'..] == list[k..] + [child];
    assert k == |list| && k' == k ==> list'[..k'] == list && list'[k'..] == [child];
    assert k' == |list| + 1 ==> list'[..k'] == list' && list'[k'..] == [];
    assert list[..|list|] == list && list[|list|..] == [];
  }

  /** The end of the process itself disturbs nothing of that. */
  lemma LastHandedOn(before: seq<Proc>, mid: seq<Proc>, after: seq<Proc>, proc: Pid, list: seq<Pid>, k: nat)
    requires HandedOn(before, mid, proc, list, k) && 0 < proc < |mid| && after == mid[proc := mid[proc].(state := DEAD)]
    ensures HandedOn(before, after, proc, list, k)
  {
  }

  class Table {
    const procs: array<Proc>
    var nextPid: nat
    ghost var birth: seq<nat>
    ghost var clock: nat

    ghost predicate Valid()
      reads this, procs
    {
      procs.Length >= 3 && 1 <= nextPid <= MaxPid() && |birth| == procs.Length && birth[INIT_PID] == 0 &&
      (forall p :: 0 <= p < procs.Length ==> birth[p] < clock) &&
      (forall p, i :: 0 <= p < procs.Length && 0 <= i < |procs[p].children| ==>
         procs[p].children[i] < procs.Length && birth[p] < birth[procs[p].children[i]]) &&
      (forall p :: 0 <= p < procs.Length ==> |procs[p].children| <= MAX_CHILDREN)
    }

    function MaxPid(): int {
      procs.Length - 1
    }

    predicate Exists(p: Pid)
      reads procs
    {
      p < procs.Length && !procs[p].state.UN_BORN?
    }

    /** The running process: it is not dead, so killing it changes its state. */
    predicate Runs(caller: Pid)
      reads procs
    {
      caller < procs.Length && !Reusable(procs[caller].state)
    }

    lemma ValidIsRising()
      requires Valid()
      ensures Rising(Kids(procs[..]), birth, clock)
    {
      var kids := Kids(procs[..]);
      forall p, i | 0 <= p < |kids| && 0 <= i < |kids[p]|
        ensures kids[p][i] < |kids| && birth[p] < birth[kids[p][i]]
      {
        assert kids[p] == procs[p].children;
      }
    }

    /** initProcessControl: the genesis process and its busy-waiting child. */
    constructor (size: nat)
      requires size >= 3
      ensures Valid() && procs.Length == size && fresh(procs)
      ensures procs[..] == seq(size, p => if p == 0 then Proc(BORN, PID_ERROR, [1])
                                          else if p == 1 then Proc(BORN, 0, []) else Proc(UN_BORN, 0, []))
    {
      procs := new Proc[size](p => if p == 0 then Proc(BORN, PID_ERROR, [1])
                                   else if p == 1 then Proc(BORN, 0, []) else Proc(UN_BORN, 0, []));
      nextPid := 2;
      birth := seq(size, p => if p == 0 then 0 else 1);
      clock := 2;
    }

    /** q comes before p in one round of 1..maxPid that begins at start. */
    predicate IsBefore(start: nat, q: nat, p: nat)
      requires procs.Length > 0
    {
      Distance(start, q, MaxPid()) < Distance(start, p, MaxPid())
    }

    /** getNextPid would give out p: the first reusable pid in circular order from nextPid. */
    predicate NextFree(p: int)
      requires procs.Length > 0
      reads this, procs
    {
      1 <= p <= MaxPid() && Reusable(procs[p].state) &&
      forall q :: 1 <= q <= MaxPid() && IsBefore(nextPid, q, p) ==> !Reusable(procs[q].state)
    }

    predicate NoneFree()
      reads procs
    {
      forall q :: 1 <= q <= MaxPid() ==> !Reusable(procs[q].state)
    }

    /** getNextPid: one round through 1..maxPid from nextPid on. */
    method GetNextPid() returns (pid: int)
      requires Valid()
      modifies this`nextPid, procs
      ensures Valid()
      ensures pid == PID_ERROR || 1 <= pid <= MaxPid()
      ensures pid == PID_ERROR <==> old(NoneFree())
      ensures pid == PID_ERROR ==> procs[..] == old(procs[..]) && nextPid == old(nextPid)
      ensures pid != PID_ERROR ==>
                old(NextFree(pid)) &&
                procs[..] == old(procs[..])[pid := old(procs[pid]).(state := UN_BORN)] &&
                nextPid == Next(old(nextPid), MaxPid())
    {
      var index: nat := nextPid;
      ghost var max := MaxPid();
      while true
        invariant 1 <= index <= max && procs[..] == old(procs[..]) && nextPid == old(nextPid)
        invariant forall q :: 1 <= q <= max && Distance(nextPid, q, max) < Distance(nextPid, index, max) ==>
                    !Reusable(procs[q].state)
        decreases max - Distance(nextPid, index, max)
      {
        if Reusable(procs[index].state) {
          procs[index] := procs[index].(state := UN_BORN);
          NextIsFurther(nextPid, nextPid, max);
          nextPid := nextPid % MaxPid() + 1;
          return index;
        }
        NextIsFurther(nextPid, index, max);
        var next := index % MaxPid() + 1;
        if next == nextPid {
          return PID_ERROR;
        }
        index := next;
      }
    }

    /** addChildToParentList: refused by a parent with fifty entries, stale ones included; otherwise the child
        takes the first slot that is empty or names a process that is gone. */
    method AddChildToParentList(parent: Pid, child: Pid) returns (ok: bool)
      requires Valid() && parent < procs.Length && child < procs.Length && birth[parent] < birth[child]
      modifies procs
      ensures Valid()
      ensures ok <==> |old(procs[parent].children)| < MAX_CHILDREN
      ensures !ok ==> procs[..] == old(procs[..])
      ensures ok ==> TakesSlot(old(procs[..]), old(procs[parent].children), procs[parent].children, child)
      ensures ok ==> procs[..] == old(procs[..])[parent := old(procs[parent]).(children := procs[parent].children)]
    {
      var kids := procs[parent].children;
      if |kids| >= MAX_CHILDREN {
        return false;
      }
      for i := 0 to MAX_CHILDREN
        invariant procs[..] == old(procs[..]) && i <= |kids|
        invariant forall j :: 0 <= j < i ==> !Reusable(procs[kids[j]].state)
      {
        if i >= |kids| {
          assert SlotIs(procs[..], kids, kids + [child], child, i);
          procs[parent] := procs[parent].(children := kids + [child]);
          return true;
        } else if Reusable(procs[kids[i]].state) {
          assert SlotIs(procs[..], kids, kids[i := child], child, i);
          procs[parent] := procs[parent].(children := kids[i := child]);
          return true;
        }
      }
      return false;
    }

    predicate ListFull(parent: Pid)
      requires parent < procs.Length
      reads procs
    {
      |procs[parent].children| >= MAX_CHILDREN
    }

    /** pid is born under parent and in its list, as its only child if it is its own parent; nobody else changes. */
    ghost predicate Born(before: seq<Proc>, pid: int, parent: Pid)
      reads procs
    {
      0 <= pid < procs.Length == |before| && parent < procs.Length &&
      procs[pid] == Proc(BORN, parent, if pid == parent then [pid] else []) &&
      (forall q :: 0 <= q < procs.Length && q != pid && q != parent ==> procs[q] == before[q]) &&
      (pid != parent ==>
         procs[parent] == before[parent].(children := procs[parent].children) &&
         TakesSlot(before[pid := procs[pid]], before[parent].children, procs[parent].children, pid))
    }

    /** Slot f is unborn, and nobody else changed. */
    ghost predicate Cleared(before: seq<Proc>, f: int)
      reads procs
    {
      0 <= f < procs.Length == |before| && procs[f].state.UN_BORN? &&
      forall q :: 0 <= q < procs.Length && q != f ==> procs[q] == before[q]
    }

    /** The call that would make a process its own child: the parent is dead, and its slot is the first one
        that getNextPid finds. */
    predicate SelfAdopts(parent: Pid, memory: bool)
      requires procs.Length > 0
      reads this, procs
    {
      memory && Exists(parent) && NextFree(parent)
    }

    lemma NextFreeIsTheOnly()
      requires procs.Length > 1
      ensures forall p, q :: NextFree(p) && NextFree(q) ==> p == q
      ensures forall p :: NextFree(p) ==> 1 <= p <= MaxPid() && Reusable(procs[p].state)
      ensures NoneFree() ==> forall p :: !NextFree(p)
    {
    }

    /** newProcess for a parent that exists; `memory` says whether the allocations succeed. A call that fails
        for want of memory or of room in the parent's list has still cleared the slot it found. */
    method NewProcess(parent: Pid, memory: bool) returns (pid: int)
      requires Valid() && Exists(parent)
      modifies this, procs
      ensures pid == PID_ERROR <==> !memory || old(NoneFree()) || old(ListFull(parent) && !NextFree(parent))
      ensures pid == PID_ERROR ==>
                if old(NoneFree()) then procs[..] == old(procs[..])
                else exists f :: Cleared(old(procs[..]), f) && old(NextFree(f))
      ensures nextPid == if old(NoneFree()) then old(nextPid) else Next(old(nextPid), MaxPid())
      ensures pid != PID_ERROR ==> old(NextFree(pid)) && Born(old(procs[..]), pid, parent)
      ensures Valid() <==> !old(SelfAdopts(parent, memory))
    {
      hide NextFree, NoneFree, TakesSlot;
      NextFreeIsTheOnly();
      pid := GetNextPid();
      if pid == PID_ERROR || !memory {
        assert pid != PID_ERROR ==> Cleared(old(procs[..]), pid);
        return PID_ERROR;
      }
      procs[pid] := Proc(BORN, parent, []);
      birth := birth[pid := clock];
      clock := clock + 1;
      if pid == parent {
        // A dead parent whose own slot was handed out: its emptied list now names itself.
        procs[pid] := procs[pid].(children := [pid]);
        assert procs[pid].children[0] == pid;
        return;
      }
      assert procs[..] == old(procs[..])[pid := procs[pid]];
      var ok := AddChildToParentList(parent, pid);
      if !ok {
        procs[pid] := procs[pid].(state := UN_BORN);
        assert Cleared(old(procs[..]), pid);
        return PID_ERROR;
      }
    }

    /** The first tests of createProcess. */
    predicate Creatable(instruction: nat, parent: Pid, priority: int)
      reads procs
    {
      instruction != 0 && Exists(parent) && IsValidPriority(priority)
    }

    /** createProcess: the tests, then newProcess; a call that fails on a test changes nothing. */
    method CreateProcess(instruction: nat, parent: Pid, priority: int, memory: bool) returns (pid: int)
      requires Valid()
      modifies this, procs
      ensures pid == PID_ERROR <==>
                instruction == 0 || !old(Exists(parent)) || !(-3 <= priority <= 4) || !memory || old(NoneFree()) ||
                old(ListFull(parent) && !NextFree(parent))
      ensures pid == PID_ERROR ==>
                if !old(Creatable(instruction, parent, priority)) || old(NoneFree()) then procs[..] == old(procs[..])
                else exists f :: Cleared(old(procs[..]), f) && old(NextFree(f))
      ensures nextPid == if !old(Creatable(instruction, parent, priority)) || old(NoneFree()) then old(nextPid)
                         else Next(old(nextPid), MaxPid())
      ensures pid != PID_ERROR ==> old(NextFree(pid)) && Born(old(procs[..]), pid, parent)
      ensures Valid() <==> !(old(Creatable(instruction, parent, priority)) && old(SelfAdopts(parent, memory)))
    {
      if instruction == 0 {
        return PID_ERROR;
      }
      if !Exists(parent) {
        return PID_ERROR;
      }
      if !IsValidPriority(priority) {
        return PID_ERROR;
      }
      pid := NewProcess(parent, memory);
    }

    /** setProcessState(p, DEAD) for a process other than the caller; the genesis process is spared. */
    method Kill(p: Pid)
      requires Valid() && p < procs.Length
      modifies procs
      ensures Valid()
      ensures procs[..] == if old(Exists(p)) && p != INIT_PID
                           then old(procs[..])[p := old(procs[p]).(state := DEAD)] else old(procs[..])
    {
      if Exists(p) && procs[p].state != DEAD && p != INIT_PID {
        procs[p] := procs[p].(state := DEAD);
      }
    }

    lemma ValidFacts(p: Pid)
      requires Valid() && p < procs.Length
      ensures |birth| == procs.Length && birth[p] < clock
      ensures forall i :: 0 <= i < |procs[p].children| ==>
                INIT_PID < procs[p].children[i] < procs.Length &&
                birth[p] < birth[procs[p].children[i]] < clock
    {
    }

    /** killAllDescendants, called by a running process: terminates because children are younger, and kills
        what it reaches, in order, until it kills the caller, which halts on the spot. */
    method KillAllDescendants(pid: Pid, caller: Pid) returns (halted: bool)
      requires Valid() && pid < procs.Length && Runs(caller) && Rising(Kids(procs[..]), birth, clock)
      modifies procs
      ensures Valid()
      ensures var order := Order(Kids(old(procs[..])), birth, clock, pid);
              (halted <==> caller in order) && KilledExactly(old(procs[..]), procs[..], Set(Until(order, caller)))
      decreases clock - birth[pid], 1
    {
      hide Valid, Until, Order, OrderOf, KilledExactly, Set, Kids, Rising;
      ghost var before, kids := procs[..], Kids(procs[..]);
      ValidFacts(pid);
      KidsAt(before, pid);
      NoneKilled(before, kids, birth, clock, pid, caller);
      if !Exists(pid) {
        return false;
      }
      var proc := procs[pid];
      var i := 0;
      while i < |proc.children|
        invariant 0 <= i <= |proc.children| && Valid()
        invariant Reached(before, pid, i, caller)
      {
        halted := KillNext(proc.children[i], before, pid, i, caller);
        if halted {
          return;
        }
        i := i + 1;
      }
      UntilEnd(OrderOf(kids, birth, clock, pid, i), caller);
      halted := false;
    }

    /** Everything below the first i children of pid is dead, and these children are; the caller is not among them. */
    ghost predicate Reached(before: seq<Proc>, pid: Pid, i: nat, caller: Pid)
      reads this, procs
    {
      Rising(Kids(before), birth, clock) && pid < |before| && i <= |Kids(before)[pid]| &&
      caller < |before| && !Reusable(before[caller].state) &&
      caller !in OrderOf(Kids(before), birth, clock, pid, i) &&
      KilledExactly(before, procs[..], Set(OrderOf(Kids(before), birth, clock, pid, i)))
    }

    /** One round of the loop of killAllDescendants. */
    method KillNext(child: Pid, ghost before: seq<Proc>, ghost pid: Pid, ghost i: nat, caller: Pid)
      returns (halted: bool)
      requires Valid() && Reached(before, pid, i, caller) && pid < procs.Length == |birth|
      requires i < |Kids(before)[pid]| && Kids(before)[pid][i] == child && INIT_PID < child < procs.Length
      requires birth[pid] < birth[child] < clock
      modifies procs
      ensures Valid()
      ensures if halted then
                var order := Order(Kids(before), birth, clock, pid);
                caller in order && KilledExactly(before, procs[..], Set(Until(order, caller)))
              else Reached(before, pid, i + 1, caller)
      decreases clock - birth[pid], 0
    {
      hide Valid, Until, OrderOf, KilledExactly, Set, Kids, Rising;
      ghost var kids, mid := Kids(before), procs[..];
      KillingKeepsKids(before, mid, Set(OrderOf(kids, birth, clock, pid, i)));
      Spared(before, mid, OrderOf(kids, birth, clock, pid, i), caller);
      halted := KillBranch(child, caller);
      BranchKilled(kids, birth, clock, pid, i, caller, before, mid, procs[..]);
    }

    /** The body of the loop of killAllDescendants: everything below the child, then the child. */
    method KillBranch(child: Pid, caller: Pid) returns (halted: bool)
      requires Valid() && child < procs.Length && child != INIT_PID
      requires Runs(caller) && Rising(Kids(procs[..]), birth, clock)
      modifies procs
      ensures Valid()
      ensures var branch := Order(Kids(old(procs[..])), birth, clock, child) + [child];
              (halted <==> caller in branch) && KilledExactly(old(procs[..]), procs[..], Set(Until(branch, caller)))
      decreases clock - birth[child], 2
    {
      hide Order, OrderOf, KilledExactly, Until;
      ghost var below := Order(Kids(procs[..]), birth, clock, child);
      UntilConcat(below, [child], caller);
      UntilOne(child, caller);
      halted := KillAllDescendants(child, caller);
      if halted {
        return;
      }
      UntilEnd(below, caller);
      ghost var mid := procs[..];
      if Exists(child) {
        Kill(child);
        halted := child == caller;
      }
      OneKilled(mid, procs[..], child);
      KillBoth(old(procs[..]), mid, procs[..], below, [child]);
    }

    /** procsDeathCleanUp: living children go to the genesis process until its list is full; from the k-th entry
        on they die. The list takes exactly as many as it has room for. */
    method ProcsDeathCleanUp(proc: Pid) returns (ghost k: nat)
      requires Valid() && proc < procs.Length && Exists(proc) && proc != INIT_PID
      modifies procs
      ensures Valid() && procs[proc] == old(procs[proc]).(state := DEAD)
      ensures HandedOn(old(procs[..]), procs[..], proc, old(procs[proc]).children, k)
      ensures var list, room := old(procs[proc]).children, old(RoomAtInit());
              Living(old(procs[..]), list[..k]) <= room &&
              (k < |list| ==> Living(old(procs[..]), list[..k]) == room && !Reusable(old(procs[list[k]].state))) &&
              (k == |list| <==> Living(old(procs[..]), list) <= room)
    {
      hide HandedOn, Living, Room;
      ghost var before, list := procs[..], procs[proc].children;
      k := HandOnChildren(proc);
      ghost var mid := procs[..];
      Kill(proc);
      LastHandedOn(before, mid, procs[..], proc, list, k);
      assert list[..|list|] == list;
      if k < |list| {
        LivingPrefix(before, list, k);
      }
    }

    /** The loop of procsDeathCleanUp. */
    method HandOnChildren(proc: Pid) returns (ghost k: nat)
      requires Valid() && proc < procs.Length && Exists(proc) && proc != INIT_PID
      modifies procs
      ensures Valid() && procs[proc] == old(procs[proc])
      ensures HandedOn(old(procs[..]), procs[..], proc, procs[proc].children, k)
      ensures Counted(old(procs[..]), procs[proc].children, k, old(RoomAtInit()))
    {
      hide HandedOn, Living, Room;
      ghost var before, list, room := procs[..], procs[proc].children, RoomAtInit();
      NothingHandedOn(before, proc);
      k := 0;
      var i := 0;
      while i < |procs[proc].children|
        invariant Valid() && procs[proc] == before[proc] && i <= |list|
        invariant HandedOn(before, procs[..], proc, list[..i], k) && Counted(before, list[..i], k, room)
      {
        var child := procs[proc].children[i];
        assert list[..i + 1] == list[..i] + [child] && child != proc;
        k := CleanUpNext(child, before, proc, list[..i], k, room);
        i := i + 1;
      }
      assert list[..i] == list;
    }

    /** The children in `list` that were living take what room there was, up to the k-th entry. */
    ghost predicate Counted(before: seq<Proc>, list: seq<Pid>, k: nat, room: nat)
      requires Valid() && |before| == procs.Length && forall i :: 0 <= i < |list| ==> list[i] < procs.Length
      reads this, procs
    {
      k <= |list| && Living(before, list[..k]) + RoomAtInit() == room &&
      (k < |list| ==>
         |procs[INIT_PID].children| == MAX_CHILDREN && RoomAtInit() == 0 && !Reusable(before[list[k]].state))
    }

    /** One round of the loop of procsDeathCleanUp. */
    method CleanUpNext(child: Pid, ghost before: seq<Proc>, ghost proc: Pid, ghost list: seq<Pid>, ghost k: nat,
                       ghost room: nat)
      returns (ghost k': nat)
      requires Valid() && INIT_PID < child < procs.Length && child != proc && birth[INIT_PID] < birth[child]
      requires HandedOn(before, procs[..], proc, list, k) && proc < procs.Length && proc != INIT_PID
      requires (forall i :: 0 <= i < |list| ==> list[i] < procs.Length) && Counted(before, list, k, room)
      modifies procs
      ensures Valid() && procs[proc] == old(procs[proc])
      ensures HandedOn(before, procs[..], proc, list + [child], k') && Counted(before, list + [child], k', room)
    {
      hide HandedOn, Living;
      Reparent(child);
      k' := NextHandedOn(before, old(procs[..]), procs[..], proc, list, child, k);
      LivingAppend(before, list, child);
      assert (list + [child])[..k'] == if k' <= |list| then list[..k'] else list + [child];
      assert list[..|list|] == list;
    }

    function RoomAtInit(): nat
      requires procs.Length > 0 && |procs[INIT_PID].children| <= MAX_CHILDREN
      requires forall i :: 0 <= i < |procs[INIT_PID].children| ==> procs[INIT_PID].children[i] < procs.Length
      reads procs
    {
      Room(procs[..], procs[INIT_PID].children)
    }

    /** The body of the loop of procsDeathCleanUp: a living child goes to the genesis process, or dies. */
    method Reparent(child: Pid)
      requires Valid() && INIT_PID < child < procs.Length && birth[INIT_PID] < birth[child]
      modifies procs
      ensures Valid()
      ensures Reusable(old(procs[child].state)) ==> procs[..] == old(procs[..])
      ensures !Reusable(old(procs[child].state)) && |old(procs[INIT_PID].children)| == MAX_CHILDREN ==>
                old(RoomAtInit()) == 0 && procs[..] == old(procs[..])[child := old(procs[child]).(state := DEAD)]
      ensures !Reusable(old(procs[child].state)) && |old(procs[INIT_PID].children)| < MAX_CHILDREN ==>
                RoomAtInit() == old(RoomAtInit()) - 1 && child in procs[INIT_PID].children &&
                procs[..] == old(procs[..])[INIT_PID := old(procs[INIT_PID]).(children := procs[INIT_PID].children)]
                             [child := old(procs[child]).(ppid := INIT_PID)]
      ensures forall q :: q in old(procs[INIT_PID].children) && !Reusable(procs[q].state) ==>
                q in procs[INIT_PID].children
    {
      hide Room, Living, TakesSlot;
      RoomFacts(procs[..], procs[INIT_PID].children);
      if Exists(child) {
        if procs[child].state != DEAD {
          var ok := AddChildToParentList(INIT_PID, child);
          if !ok {
            Kill(child);
          } else {
            TakingUsesRoom(old(procs[..]), old(procs[INIT_PID].children), procs[INIT_PID].children, child);
            TakesSlotFacts(old(procs[..]), old(procs[INIT_PID].children), procs[INIT_PID].children, child);
            procs[child] := procs[child].(ppid := INIT_PID);
            RoomSame(old(procs[..]), procs[..], procs[INIT_PID].children);
          }
        }
      }
    }
  }

  lemma ReplacedSlot(kids: seq<Pid>, i: nat, child: Pid)
    requires i < |kids|
    ensures child in kids[i := child]
    ensures forall q :: q in kids && q != kids[i] ==> q in kids[i := child]
  {
    assert kids[i := child][i] == child;
    forall q | q in kids && q != kids[i] ensures q in kids[i := child] {
      var j :| 0 <= j < |kids| && kids[j] == q;
      assert kids[i := child][j] == q;
    }
  }

  lemma KidsAt(procs: seq<Proc>, p: Pid)
    requires p < |procs|
    ensures Kids(procs)[p] == if procs[p].state.UN_BORN? then [] else procs[p].children
  {
  }

  lemma Spared(before: seq<Proc>, after: seq<Proc>, order: seq<Pid>, q: Pid)
    requires KilledExactly(before, after, Set(order)) && q !in order && q < |before|
    ensures after[q] == before[q]
  {
  }

  lemma KillingKeepsKids(before: seq<Proc>, after: seq<Proc>, dead: iset<Pid>)
    requires KilledExactly(before, after, dead)
    ensures Kids(after) == Kids(before)
  {
  }
}

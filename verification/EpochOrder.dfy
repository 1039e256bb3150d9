/**
 * From one epoch to the next: the order is the stable sort of this epoch's run order by aged priority,
 * ageing stops within 40 turns, and from then on the tick-only schedule repeats.
 */
module EpochOrder {
  import opened Options
  import opened Scheduler
  import opened SchedulerInvariant
  import opened SchedulerEvents
  import opened Epochs

  // ---------------------------------------------------------------- the finished queues

  /** The processes of `order` whose aged priority is k, in the same order. */
  function OnLevel(s: Sched, order: seq<Pid>, k: int): seq<Pid> {
    if order == [] then [] else (if Aged(s, order[0]) == k then [order[0]] else []) + OnLevel(s, order[1..], k)
  }

  lemma {:induction false} SettleIsFilter(s: Sched, finished: Queues, order: seq<Pid>, k: nat)
    requires k < |finished|
    ensures SettleAll(s, finished, order)[k] == finished[k] + OnLevel(s, order, k)
    decreases |order|
  {
    if order != [] {
      SettleIsFilter(s, AddTail(finished, Aged(s, order[0]), order[0]), order[1..], k);
    }
  }

  // ---------------------------------------------------------------- where an epoch starts

  /** The queues of this epoch before the running process was taken off. */
  function Queue(e: Sched): Queues {
    if e.current.Some? then AddHead(e.running, Priority(e, e.current.value), e.current.value) else e.running
  }

  /** The structures have just been swapped: the first process of the first level runs on a full quantum. */
  ghost predicate EpochStart(e: Sched) {
    Steady(e) && e.current.Some? && Flat(e.finished) == [] &&
    NodeOf(e, e.current.value).quantum == FullQuantum(e, e.current.value) &&
    forall k :: 0 <= k < |e.running| && k < Priority(e, e.current.value) ==> e.running[k] == []
  }

  lemma {:induction false} FlatAddHead(qs: Queues, k: nat, c: Pid)
    requires k < |qs| && forall i :: 0 <= i < k ==> qs[i] == []
    ensures Flat(AddHead(qs, k, c)) == [c] + Flat(qs)
  {
    if k > 0 {
      FlatAddHead(qs[1..], k - 1, c);
      assert AddHead(qs, k, c)[1..] == AddHead(qs[1..], k - 1, c);
    } else {
      assert AddHead(qs, 0, c)[1..] == qs[1..];
      assert [c] + qs[0] + Flat(qs[1..]) == [c] + (qs[0] + Flat(qs[1..]));
    }
  }

  lemma QueueIsPending(e: Sched)
    requires EpochStart(e)
    ensures Flat(Queue(e)) == Pending(e)
  {
    PriorityInRange(e, e.current.value);
    FlatAddHead(e.running, Priority(e, e.current.value), e.current.value);
  }

  /** Every process of an epoch sits on the level of its priority. */
  lemma QueuePlaced(e: Sched)
    requires EpochStart(e)
    ensures |Queue(e)| == PRIORITY_LEVELS
    ensures forall k, p :: 0 <= k < |Queue(e)| && p in Queue(e)[k] ==> Priority(e, p) == k
  {
  }

  lemma OwedNothing(s: Sched)
    requires Steady(s) && Owed(s) == []
    ensures Left(s) == 0 && Flat(s.running) == []
  {
    OwedCovers(s);
    if Flat(s.running) != [] {
      QueuedShare(s);
    }
  }

  lemma OwedCovers(s: Sched)
    ensures s.current.Some? ==> |Owed(s)| >= Left(s)
    ensures Flat(s.running) != [] && Share(s, Flat(s.running)[0]) > 0 ==> |Owed(s)| > 0
  {
    if s.current.Some? {
      RepeatLength(s.current.value, Left(s));
    }
    var order := Flat(s.running);
    if order != [] && Share(s, order[0]) > 0 {
      RepeatLength(order[0], Share(s, order[0]));
    }
  }

  /** The tick that swaps the structures starts an epoch on exactly the queues that were settled. */
  lemma SwapStartsEpoch(s: Sched)
    requires Steady(s) && Owed(s) == [] && Flat(Settle(s)) != []
    ensures EpochStart(Tick(s)) && Queue(Tick(s)) == Settle(s) && Tick(s).rrQuantum == s.rrQuantum
  {
    OwedNothing(s);
    TickKeepsInv(s);
    TickDispatches(s);
    RetiredFrame(s);
    RetireKeepsInv(s);
    SettleOfDrained(s);
    SwapDispatches(s, Retired(s));
  }

  lemma SettleOfDrained(s: Sched)
    requires Flat(s.running) == []
    ensures Settle(s) == Ended(s)
  {
    assert Pending(s) == Now(s);
    if s.current.Some? {
      var c := s.current.value;
      var settled := AddTail(s.finished, Aged(s, c), c);
      assert Pending(s)[0] == c && Pending(s)[1..] == [];
      assert SettleAll(s, settled, []) == settled;
    }
  }

  lemma SwapDispatches(s: Sched, r: Sched)
    requires Inv(r) && Flat(r.running) == [] && Flat(r.finished) != [] && r.finished == Settle(s)
    requires r.rrQuantum == s.rrQuantum
    requires var t := SwapIfDrained(r);
             var k := FirstLevel(t.running);
             Steady(Tick(s)) &&
             Tick(s) == if k == |t.running| then t
                        else Dispatch(t.(running := t.running[k := t.running[k][1..]]), t.running[k][0])
    ensures EpochStart(Tick(s)) && Queue(Tick(s)) == Settle(s) && Tick(s).rrQuantum == s.rrQuantum
  {
    FlatEmpty(r.running);
    FlatEmpty(r.finished);
    var t := SwapIfDrained(r);
    assert t.running == r.finished && t.finished == r.running;
    var k := FirstLevel(t.running);
    var p := t.running[k][0];
    assert p in t.running[k];
    var t' := t.(running := t.running[k := t.running[k][1..]]);
    DispatchFrame(t', p);
    assert Priority(Tick(s), p) == k;
    assert [p] + t'.running[k] == t.running[k];
    assert AddHead(t'.running, k, p) == t.running;
  }

  // ---------------------------------------------------------------- one epoch

  function NextEpoch(e: Sched): Sched {
    TickN(e, |Owed(e)| + 1)
  }

  lemma {:induction false} TickNLast(s: Sched, n: nat)
    ensures TickN(s, n + 1) == Tick(TickN(s, n))
    decreases n
  {
    if n > 0 {
      TickNLast(Tick(s), n - 1);
    }
  }

  lemma {:induction false} TickNKeepsQuantum(s: Sched, n: nat)
    requires Steady(s)
    ensures TickN(s, n).rrQuantum == s.rrQuantum
    decreases n
  {
    if n > 0 {
      TickKeepsInv(s);
      TickKeepsQuantum(s);
      TickNKeepsQuantum(Tick(s), n - 1);
    }
  }

  lemma TickKeepsQuantum(s: Sched)
    requires Steady(s)
    ensures Tick(s).rrQuantum == s.rrQuantum
  {
    if Left(s) > 0 {
      TickGoesOn(s);
    } else {
      TickDispatches(s);
      RetiredFrame(s);
    }
  }

  /** The tick after the last one owed starts the next epoch, on the queues that were settled. */
  lemma NextEpochStarts(e: Sched)
    requires EpochStart(e)
    ensures EpochStart(NextEpoch(e)) && Queue(NextEpoch(e)) == Settle(e) && NextEpoch(e).rrQuantum == e.rrQuantum
  {
    EpochPaysOwed(e);
    TickNLast(e, |Owed(e)|);
    TickNKeepsQuantum(e, |Owed(e)|);
    SettledNotEmpty(e);
    SwapStartsEpoch(TickN(e, |Owed(e)|));
  }

  /** The next epoch's queues are this epoch's run order, filtered by aged priority: its run order is the
      stable sort of this one's. */
  lemma NextEpochIsStableSort(e: Sched)
    requires EpochStart(e)
    ensures EpochStart(NextEpoch(e)) && |Queue(NextEpoch(e))| == PRIORITY_LEVELS
    ensures forall k :: 0 <= k < PRIORITY_LEVELS ==> Queue(NextEpoch(e))[k] == OnLevel(e, Pending(e), k)
    ensures Pending(NextEpoch(e)) == Flat(Queue(NextEpoch(e)))
  {
    NextEpochStarts(e);
    forall k: nat | k < PRIORITY_LEVELS ensures Settle(e)[k] == OnLevel(e, Pending(e), k) {
      SettleIsFilter(e, e.finished, Pending(e), k);
      FlatEmpty(e.finished);
    }
    QueueIsPending(NextEpoch(e));
  }

  lemma SettledNotEmpty(e: Sched)
    requires EpochStart(e)
    ensures Flat(Settle(e)) != []
  {
    var c := e.current.value;
    PriorityInRange(e, c);
    var k := Aged(e, c);
    SettleIsFilter(e, e.finished, Pending(e), k);
    assert Pending(e)[0] == c;
    assert OnLevel(e, Pending(e), k)[0] == c;
    assert c in Settle(e)[k];
    FlatMember(Settle(e), c);
  }

  // ---------------------------------------------------------------- ageing

  datatype Age = Age(turns: nat, priority: int, kind: PriorityType)

  function AgeOf(s: Sched, p: Pid): Age {
    Age(NodeOf(s, p).turns, Priority(s, p), PcbOf(s, p).priorityType)
  }

  /** One more turn in the processor. */
  function Turn(a: Age): Age {
    a.(turns := a.turns + 1,
       priority := if a.kind.NORMAL? && (a.turns + 1) % MAX_TURNS_PER_PRIORITY == 0 && a.priority < MIN_PRIORITY
                   then a.priority + 1 else a.priority)
  }

  lemma TurnIsAged(s: Sched, p: Pid)
    ensures Turn(AgeOf(s, p)).priority == Aged(s, p)
  {
  }

  /** The age p will have at the end of the epoch. */
  function AgeAtEnd(s: Sched, p: Pid): Age {
    if p in Pending(s) then Turn(AgeOf(s, p)) else AgeOf(s, p)
  }

  /** Ending a turn counts it for the running process and for nobody else. */
  lemma RetiredAges(s: Sched, p: Pid)
    requires Steady(s) && Left(s) == 0
    ensures AgeOf(Retired(s), p) == if s.current == Some(p) then Turn(AgeOf(s, p)) else AgeOf(s, p)
  {
    if s.current == Some(p) {
      OutsideTableUnborn(s, p);
    }
  }

  lemma DispatchAges(s: Sched, x: Pid, p: Pid)
    ensures AgeOf(Dispatch(s, x), p) == AgeOf(s, p)
  {
    DispatchFrame(s, x);
  }

  /** A tick counts a turn for the process whose quantum is used up and for nobody else. */
  lemma TickAges(s: Sched, p: Pid)
    requires Steady(s)
    ensures AgeOf(Tick(s), p) == if Left(s) == 0 && s.current == Some(p) then Turn(AgeOf(s, p)) else AgeOf(s, p)
  {
    if Left(s) > 0 {
      TickGoesOn(s);
    } else {
      TickDispatches(s);
      RetiredAges(s, p);
      var t := SwapIfDrained(Retired(s));
      var k := FirstLevel(t.running);
      if k < |t.running| {
        DispatchAges(t.(running := t.running[k := t.running[k][1..]]), t.running[k][0], p);
      }
    }
  }

  /** Who has still to run, after a tick within the epoch. */
  lemma PendingAfterTick(s: Sched, p: Pid)
    requires Steady(s) && Owed(s) != []
    ensures p in Pending(Tick(s)) <==> p in Pending(s) && !(Left(s) == 0 && s.current == Some(p))
  {
    if Left(s) > 0 {
      TickGoesOn(s);
    } else {
      assert Owed(s) == Ticks(s, Flat(s.running));
      DispatchWithin(s);
      assert Pending(Tick(s)) == Flat(s.running);
      if s.current.Some? {
        CurrentNotQueued(s, s.current.value);
      }
    }
  }

  lemma AgeAtEndStep(s: Sched, p: Pid)
    requires Steady(s) && Owed(s) != []
    ensures AgeAtEnd(Tick(s), p) == AgeAtEnd(s, p)
  {
    TickAges(s, p);
    PendingAfterTick(s, p);
    if s.current == Some(p) {
      assert Pending(s)[0] == p;
    }
  }

  lemma {:induction false} AgeAtEndStays(s: Sched, n: nat, p: Pid)
    requires Steady(s) && n <= |Owed(s)|
    ensures AgeAtEnd(TickN(s, n), p) == AgeAtEnd(s, p)
    decreases n
  {
    hide Tick, Owed, Steady, AgeAtEnd;
    if n > 0 {
      TickPaysOwed(s);
      AgeAtEndStep(s, p);
      AgeAtEndStays(Tick(s), n - 1, p);
    }
  }

  /** Over one epoch every process of it takes exactly one turn, and nobody else does. */
  lemma OneTurnPerEpoch(e: Sched, p: Pid)
    requires EpochStart(e)
    ensures AgeOf(NextEpoch(e), p) == if p in Pending(e) then Turn(AgeOf(e, p)) else AgeOf(e, p)
  {
    var s := TickN(e, |Owed(e)|);
    EpochPaysOwed(e);
    AgeAtEndStays(e, |Owed(e)|, p);
    TickNLast(e, |Owed(e)|);
    OwedNothing(s);
    TickAges(s, p);
    assert Pending(s) == Now(s);
  }

  /** Turns until ageing has no more effect. */
  function ToGo(a: Age): int {
    if a.kind.NORMAL? && a.priority < MIN_PRIORITY
    then (MIN_PRIORITY - a.priority) * MAX_TURNS_PER_PRIORITY - a.turns % MAX_TURNS_PER_PRIORITY
    else 0
  }

  lemma TurnCountsDown(a: Age)
    requires 0 <= a.priority
    ensures 0 <= ToGo(a) <= 40
    ensures ToGo(Turn(a)) == if ToGo(a) > 0 then ToGo(a) - 1 else 0
    ensures ToGo(a) == 0 ==> Turn(a).priority == a.priority
    ensures Turn(a).priority >= 0
  {
    var m := a.turns % 10;
    if m == 9 {
      DivModStep(a.turns);
    } else {
      DivModStep(a.turns);
    }
  }

  lemma DivModStep(n: nat)
    ensures (n + 1) % 10 == if n % 10 == 9 then 0 else n % 10 + 1
    ensures (n + 1) / 10 == if n % 10 == 9 then n / 10 + 1 else n / 10
  {
  }

  /** The ageing law: a NORMAL process added at priority start has priority min(4, start + turns / 10). */
  predicate FollowsLaw(a: Age, start: nat) {
    a.kind.NORMAL? && a.priority == if start + a.turns / 10 < 4 then start + a.turns / 10 else 4
  }

  lemma TurnFollowsLaw(a: Age, start: nat)
    requires FollowsLaw(a, start)
    ensures FollowsLaw(Turn(a), start)
  {
    DivModStep(a.turns);
  }

  // ---------------------------------------------------------------- many epochs

  function EpochN(e: Sched, n: nat): Sched
    decreases n
  {
    if n == 0 then e else NextEpoch(EpochN(e, n - 1))
  }

  lemma {:induction false} OnLevelMember(s: Sched, order: seq<Pid>, k: int, p: Pid)
    ensures p in OnLevel(s, order, k) <==> p in order && Aged(s, p) == k
  {
    if order != [] {
      OnLevelMember(s, order[1..], k, p);
    }
  }

  /** Tick-only epochs run the same processes. */
  lemma SameProcesses(e: Sched, p: Pid)
    requires EpochStart(e)
    ensures p in Pending(NextEpoch(e)) <==> p in Pending(e)
  {
    var next := NextEpoch(e);
    NextEpochIsStableSort(e);
    QueuePlaced(next);
    FlatMember(Queue(next), p);
    forall k: nat | k < PRIORITY_LEVELS ensures p in Queue(next)[k] <==> p in Pending(e) && Aged(e, p) == k {
      OnLevelMember(e, Pending(e), k, p);
    }
    if p in Pending(e) {
      PriorityInRange(e, p);
      var k := Aged(e, p);
      assert p in Queue(next)[k];
    }
  }

  /** One epoch brings every process of it one turn closer to its final priority. */
  lemma EpochCountsDown(d: Sched, p: Pid)
    requires EpochStart(d)
    ensures p in Pending(NextEpoch(d)) <==> p in Pending(d)
    ensures p in Pending(d) ==> var g := ToGo(AgeOf(d, p)); ToGo(AgeOf(NextEpoch(d), p)) == if g > 0 then g - 1 else 0
  {
    SameProcesses(d, p);
    OneTurnPerEpoch(d, p);
    PriorityInRange(d, p);
    TurnCountsDown(AgeOf(d, p));
  }

  lemma {:induction false} EpochNStarts(e: Sched, n: nat)
    requires EpochStart(e)
    ensures EpochStart(EpochN(e, n)) && EpochN(e, n).rrQuantum == e.rrQuantum
    decreases n
  {
    hide NextEpoch;
    if n > 0 {
      EpochNStarts(e, n - 1);
      NextEpochStarts(EpochN(e, n - 1));
    }
  }

  /** After 40 epochs nobody has turns left that could age it. */
  lemma {:induction false} AfterEpochs(e: Sched, n: nat, p: Pid)
    requires EpochStart(e)
    ensures p in Pending(EpochN(e, n)) <==> p in Pending(e)
    ensures p in Pending(e) ==> ToGo(AgeOf(EpochN(e, n), p)) <= if n < 40 then 40 - n else 0
    decreases n
  {
    hide NextEpoch;
    if n == 0 {
      PriorityInRange(e, p);
      TurnCountsDown(AgeOf(e, p));
    } else {
      var d := EpochN(e, n - 1);
      AfterEpochs(e, n - 1, p);
      EpochNStarts(e, n - 1);
      EpochCountsDown(d, p);
    }
  }

  lemma {:induction false} OnLevelConcat(s: Sched, a: seq<Pid>, b: seq<Pid>, k: int)
    ensures OnLevel(s, a + b, k) == OnLevel(s, a, k) + OnLevel(s, b, k)
  {
    if a == [] {
      assert a + b == b;
    } else {
      assert (a + b)[1..] == a[1..] + b;
      OnLevelConcat(s, a[1..], b, k);
    }
  }

  lemma {:induction false} OnLevelAll(s: Sched, q: seq<Pid>, j: int, k: int)
    requires forall p :: p in q ==> Aged(s, p) == j
    ensures OnLevel(s, q, k) == if j == k then q else []
  {
    if q != [] {
      OnLevelAll(s, q[1..], j, k);
    }
  }

  /** Filtering queues whose processes sit on their own level gives the queues back. */
  lemma {:induction false} OnLevelOfFlat(s: Sched, qs: Queues, base: int, k: int)
    requires forall j, p :: 0 <= j < |qs| && p in qs[j] ==> Aged(s, p) == base + j
    ensures OnLevel(s, Flat(qs), k) == if base <= k < base + |qs| then qs[k - base] else []
    decreases |qs|
  {
    hide Aged, OnLevel;
    OnLevelAll(s, [], base, k);
    if qs != [] {
      var rest := qs[1..];
      OnLevelConcat(s, qs[0], Flat(rest), k);
      OnLevelAll(s, qs[0], base, k);
      forall j, p | 0 <= j < |rest| && p in rest[j] ensures Aged(s, p) == base + 1 + j {
        assert p in qs[j + 1];
      }
      OnLevelOfFlat(s, rest, base + 1, k);
    }
  }

  /** When nobody ages, filtering the run order gives the queues it came from. */
  lemma EverybodyStays(e: Sched)
    requires EpochStart(e) && forall p :: p in Pending(e) ==> Aged(e, p) == Priority(e, p)
    ensures |Queue(e)| == PRIORITY_LEVELS
    ensures forall k :: 0 <= k < PRIORITY_LEVELS ==> OnLevel(e, Pending(e), k) == Queue(e)[k]
  {
    QueueIsPending(e);
    QueuePlaced(e);
    forall j, p | 0 <= j < |Queue(e)| && p in Queue(e)[j] ensures Aged(e, p) == 0 + j {
      FlatMember(Queue(e), p);
    }
    forall k: nat | k < PRIORITY_LEVELS ensures OnLevel(e, Pending(e), k) == Queue(e)[k] {
      OnLevelOfFlat(e, Queue(e), 0, k);
    }
  }

  /** An epoch in which nobody ages is followed by the same queues. */
  lemma NoAgeingRepeats(e: Sched)
    requires EpochStart(e) && forall p :: p in Pending(e) ==> Aged(e, p) == Priority(e, p)
    ensures EpochStart(NextEpoch(e)) && Queue(NextEpoch(e)) == Queue(e)
  {
    hide NextEpoch, Queue, OnLevel, Pending;
    NextEpochIsStableSort(e);
    EverybodyStays(e);
  }

  /** The ticks of a whole epoch, the one that starts it included. */
  function EpochTicks(e: Sched): seq<Pid> {
    Now(e) + Owed(e)
  }

  lemma EpochTicksAreShares(e: Sched)
    requires EpochStart(e)
    ensures EpochTicks(e) == Ticks(e, Pending(e))
  {
    var c := e.current.value;
    PriorityInRange(e, c);
    assert Pending(e)[1..] == Flat(e.running);
    assert Repeat(c, Share(e, c)) == [c] + Repeat(c, Left(e));
  }

  /** Then the ticks are handed out as in this one, too. */
  lemma NoAgeingSameTicks(e: Sched)
    requires EpochStart(e) && forall p :: p in Pending(e) ==> Aged(e, p) == Priority(e, p)
    ensures EpochTicks(NextEpoch(e)) == EpochTicks(e)
  {
    hide NextEpoch;
    NoAgeingRepeats(e);
    QueueIsPending(e);
    QueueIsPending(NextEpoch(e));
    EpochTicksAreShares(e);
    EpochTicksAreShares(NextEpoch(e));
    forall p | p in Pending(e) ensures Share(NextEpoch(e), p) == Share(e, p) {
      SameShare(e, p);
    }
    TicksSame(e, NextEpoch(e), Pending(e));
  }

  /** Who does not age keeps its share. */
  lemma SameShare(e: Sched, p: Pid)
    requires EpochStart(e) && p in Pending(e) && Aged(e, p) == Priority(e, p)
    ensures Share(NextEpoch(e), p) == Share(e, p)
  {
    hide NextEpoch;
    NextEpochStarts(e);
    OneTurnPerEpoch(e, p);
    TurnIsAged(e, p);
    assert AgeOf(NextEpoch(e), p).priority == Priority(e, p);
  }

  /** After 40 epochs every epoch runs the same processes for the same ticks in the same order. */
  lemma PeriodicAfter40(e: Sched, n: nat)
    requires EpochStart(e) && n >= 40
    ensures EpochStart(EpochN(e, n)) && EpochStart(EpochN(e, n + 1))
    ensures Queue(EpochN(e, n + 1)) == Queue(EpochN(e, n))
    ensures EpochTicks(EpochN(e, n + 1)) == EpochTicks(EpochN(e, n))
  {
    hide NextEpoch;
    var d := EpochN(e, n);
    EpochNStarts(e, n);
    forall p | p in Pending(d) ensures Aged(d, p) == Priority(d, p) {
      AfterEpochs(e, n, p);
      PriorityInRange(d, p);
      TurnCountsDown(AgeOf(d, p));
    }
    NoAgeingRepeats(d);
    NoAgeingSameTicks(d);
  }
}

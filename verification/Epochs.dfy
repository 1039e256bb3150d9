/**
 * Tick-only runs of the scheduler. One tick always takes the first element off the list of ticks the
 * state still owes (Owed), which gives the exact CPU share, the decreasing measure and the order of the
 * next epoch at once.
 */
module Epochs {
  import opened Options
  import opened Scheduler
  import opened SchedulerInvariant
  import opened SchedulerEvents

  function Flat(qs: Queues): seq<Pid> {
    if qs == [] then [] else qs[0] + Flat(qs[1..])
  }

  function Repeat(p: Pid, n: nat): seq<Pid> {
    if n == 0 then [] else [p] + Repeat(p, n - 1)
  }

  /** How many ticks a dispatched process gets: the dispatching tick and its quantum. */
  function Share(s: Sched, p: Pid): int {
    s.rrQuantum + 5 - Priority(s, p)
  }

  /** The ticks a list of ready processes gets, in order. */
  function Ticks(s: Sched, order: seq<Pid>): seq<Pid> {
    if order == [] then []
    else Repeat(order[0], if Share(s, order[0]) > 0 then Share(s, order[0]) else 0) + Ticks(s, order[1..])
  }

  /** What is left of the running process's quantum. */
  function Left(s: Sched): nat {
    if s.current.Some? && NodeOf(s, s.current.value).quantum > 0 then NodeOf(s, s.current.value).quantum else 0
  }

  function Now(s: Sched): seq<Pid> {
    if s.current.Some? then [s.current.value] else []
  }

  /** The ticks still owed in this epoch: the rest of the current quantum, then every queued process. */
  function Owed(s: Sched): seq<Pid> {
    (if s.current.Some? then Repeat(s.current.value, Left(s)) else []) + Ticks(s, Flat(s.running))
  }

  /** The processes that have not finished their turn of this epoch, in the order they run. */
  function Pending(s: Sched): seq<Pid> {
    Now(s) + Flat(s.running)
  }

  /** The priority p will have when its turn ends. */
  function Aged(s: Sched, p: Pid): int {
    AgedPriority(PcbOf(s, p), NodeOf(s, p).turns + 1)
  }

  /** The finished queues once every process of `order` has ended its turn. */
  function SettleAll(s: Sched, finished: Queues, order: seq<Pid>): (r: Queues)
    ensures |r| == |finished|
    decreases |order|
  {
    if order == [] then finished
    else SettleAll(s, AddTail(finished, Aged(s, order[0]), order[0]), order[1..])
  }

  /** The finished queues once the running process's turn has ended. */
  function Ended(s: Sched): Queues {
    if s.current.Some? then AddTail(s.finished, Aged(s, s.current.value), s.current.value) else s.finished
  }

  function Settle(s: Sched): Queues {
    SettleAll(s, s.finished, Pending(s))
  }

  // ---------------------------------------------------------------- lists

  lemma {:induction false} FlatPop(qs: Queues)
    requires FirstLevel(qs) < |qs|
    ensures var k := FirstLevel(qs); Flat(qs) == [qs[k][0]] + Flat(qs[k := qs[k][1..]])
  {
    var k := FirstLevel(qs);
    if k > 0 {
      FlatPop(qs[1..]);
      assert qs[k := qs[k][1..]][1..] == qs[1..][k - 1 := qs[k][1..]];
    } else {
      assert qs[0 := qs[0][1..]][1..] == qs[1..];
    }
  }

  lemma {:induction false} FlatEmpty(qs: Queues)
    ensures Flat(qs) == [] <==> FirstLevel(qs) == |qs|
  {
    if qs != [] {
      FlatEmpty(qs[1..]);
    }
  }

  lemma {:induction false} FlatMember(qs: Queues, p: Pid)
    ensures p in Flat(qs) <==> exists k :: 0 <= k < |qs| && p in qs[k]
  {
    if qs != [] {
      FlatMember(qs[1..], p);
      if k :| 0 <= k < |qs| && p in qs[k] {
        assert k > 0 ==> p in qs[1..][k - 1];
      }
      if k :| 0 <= k < |qs[1..]| && p in qs[1..][k] {
        assert p in qs[k + 1];
      }
    }
  }

  lemma {:induction false} TicksSame(s: Sched, t: Sched, order: seq<Pid>)
    requires forall p :: p in order ==> Share(s, p) == Share(t, p)
    ensures Ticks(s, order) == Ticks(t, order)
  {
    if order != [] {
      TicksSame(s, t, order[1..]);
    }
  }

  lemma {:induction false} SettleSame(s: Sched, t: Sched, finished: Queues, order: seq<Pid>)
    requires forall p :: p in order ==> Aged(s, p) == Aged(t, p)
    ensures SettleAll(s, finished, order) == SettleAll(t, finished, order)
    decreases |order|
  {
    if order != [] {
      SettleSame(s, t, AddTail(finished, Aged(s, order[0]), order[0]), order[1..]);
    }
  }

  // ---------------------------------------------------------------- one tick

  /** Ready to tick: the invariant, and no running process that just died or blocked. */
  ghost predicate Steady(s: Sched) {
    Inv(s) && !Zombie(s)
  }

  /** A tick within a quantum. */
  lemma TickGoesOn(s: Sched)
    requires Steady(s) && Left(s) > 0
    ensures var c := s.current.value;
            Tick(s) == WithNode(s, c, NodeOf(s, c).(quantum := NodeOf(s, c).quantum - 1))
  {
  }

  /** A tick that ends a turn, or finds nobody running, in terms of the state with nobody running. */
  lemma TickDispatches(s: Sched)
    requires Steady(s) && Left(s) == 0
    ensures var t := SwapIfDrained(Retired(s));
            var k := FirstLevel(t.running);
            Tick(s) == if k == |t.running| then t
                       else Dispatch(t.(running := t.running[k := t.running[k][1..]]), t.running[k][0])
  {
    TickPicksFirst(s);
  }

  /** What ending the current turn leaves alone. */
  lemma RetiredFrame(s: Sched)
    requires Steady(s) && Left(s) == 0
    ensures var r := Retired(s);
            r.running == s.running && r.blocked == s.blocked && r.rrQuantum == s.rrQuantum && r.current == None &&
            r.finished == Ended(s) &&
            (forall p: Pid :: s.current != Some(p) ==> PcbOf(r, p) == PcbOf(s, p) && NodeOf(r, p) == NodeOf(s, p))
  {
  }

  lemma DispatchFrame(s: Sched, p: Pid)
    ensures var t := Dispatch(s, p);
            t.running == s.running && t.finished == s.finished && t.blocked == s.blocked &&
            t.rrQuantum == s.rrQuantum &&
            (forall x :: Priority(t, x) == Priority(s, x) && PcbOf(t, x).priorityType == PcbOf(s, x).priorityType) &&
            (forall x :: NodeOf(t, x).turns == NodeOf(s, x).turns) && NodeOf(t, p).quantum == FullQuantum(s, p)
  {
  }

  /** The running process waits in no ready queue. */
  lemma CurrentNotQueued(s: Sched, c: Pid)
    requires Steady(s) && s.current == Some(c)
    ensures c !in Flat(s.running)
  {
    NotReadyQueued(s, c);
    FlatMember(s.running, c);
  }

  /** The exact CPU share, one tick at a time: a tick runs the first process the state owes a tick to and
      leaves the rest owed; the finished queues the epoch will end with stay the same. */
  lemma TickPaysOwed(s: Sched)
    requires Steady(s) && Owed(s) != []
    ensures Steady(Tick(s)) && Tick(s).current == Some(Owed(s)[0])
    ensures Owed(Tick(s)) == Owed(s)[1..]
    ensures Settle(Tick(s)) == Settle(s)
  {
    TickKeepsInv(s);
    if Left(s) > 0 {
      PayWithinQuantum(s);
    } else {
      PayByDispatch(s);
    }
  }

  lemma PayWithinQuantum(s: Sched)
    requires Steady(s) && Left(s) > 0
    ensures Owed(s) != [] && Tick(s).current == Some(Owed(s)[0]) && Owed(Tick(s)) == Owed(s)[1..]
    ensures Settle(Tick(s)) == Settle(s)
  {
    hide Tick;
    var c, t := s.current.value, Tick(s);
    TickGoesOn(s);
    TicksSame(s, t, Flat(s.running));
    SettleSame(s, t, s.finished, Pending(s));
    assert Repeat(c, Left(s)) == [c] + Repeat(c, Left(s) - 1);
  }

  /** A tick that ends a turn within an epoch: what it changes, as far as the lists below care. */
  ghost predicate Hands(s: Sched, t: Sched) {
    var order := Flat(s.running);
    order != [] && t.current == Some(order[0]) && Flat(t.running) == order[1..] && t.rrQuantum == s.rrQuantum &&
    NodeOf(t, order[0]).quantum == FullQuantum(s, order[0]) &&
    t.finished == Ended(s) &&
    forall x :: x in order ==> Priority(t, x) == Priority(s, x) && Aged(t, x) == Aged(s, x)
  }

  lemma AfterDispatch(s: Sched, r: Sched, k: nat)
    requires k == FirstLevel(s.running) < |s.running| && r.running == s.running && r.rrQuantum == s.rrQuantum
    requires r.finished == Ended(s)
    requires forall x: Pid :: s.current != Some(x) ==> PcbOf(r, x) == PcbOf(s, x) && NodeOf(r, x) == NodeOf(s, x)
    requires s.current.Some? ==> s.current.value !in Flat(s.running)
    ensures Hands(s, Dispatch(r.(running := s.running[k := s.running[k][1..]]), s.running[k][0]))
  {
    FlatPop(s.running);
    DispatchFrame(r.(running := s.running[k := s.running[k][1..]]), s.running[k][0]);
  }

  lemma DispatchWithin(s: Sched)
    requires Steady(s) && Left(s) == 0 && Flat(s.running) != []
    ensures Hands(s, Tick(s))
  {
    TickDispatches(s);
    RetiredFrame(s);
    FlatEmpty(s.running);
    if s.current.Some? {
      CurrentNotQueued(s, s.current.value);
    }
    SwapOnlyWhenDrained(Retired(s));
    AfterDispatch(s, Retired(s), FirstLevel(s.running));
  }

  lemma SwapOnlyWhenDrained(r: Sched)
    ensures FirstLevel(r.running) < |r.running| ==> SwapIfDrained(r) == r
  {
  }

  lemma HandsPays(s: Sched, t: Sched)
    requires Hands(s, t) && Left(s) == 0 && Share(s, Flat(s.running)[0]) > 1
    ensures Owed(s) != [] && t.current == Some(Owed(s)[0]) && Owed(t) == Owed(s)[1..]
  {
    var order := Flat(s.running);
    var p := order[0];
    assert Owed(s) == Ticks(s, order);
    assert Left(t) + 1 == Share(s, p);
    assert Repeat(p, Share(s, p)) == [p] + Repeat(p, Left(t));
    TicksSame(s, t, order[1..]);
  }

  lemma QueuedShare(s: Sched)
    requires Steady(s) && Flat(s.running) != []
    ensures Share(s, Flat(s.running)[0]) > 1
  {
    PriorityInRange(s, Flat(s.running)[0]);
  }

  lemma PayByDispatch(s: Sched)
    requires Steady(s) && Left(s) == 0 && Owed(s) != []
    ensures Tick(s).current == Some(Owed(s)[0]) && Owed(Tick(s)) == Owed(s)[1..]
    ensures Settle(Tick(s)) == Settle(s)
  {
    DispatchWithin(s);
    QueuedShare(s);
    HandsPays(s, Tick(s));
    HandsSettles(s, Tick(s));
  }

  lemma HandsSettles(s: Sched, t: Sched)
    requires Hands(s, t)
    ensures Settle(t) == Settle(s)
  {
    var order := Flat(s.running);
    assert Pending(t) == order;
    SettleSame(s, t, t.finished, order);
    if s.current.Some? {
      assert Pending(s)[0] == s.current.value && Pending(s)[1..] == order;
    } else {
      assert Pending(s) == order;
    }
  }

  // ---------------------------------------------------------------- whole epochs

  function TickN(s: Sched, n: nat): Sched
    decreases n
  {
    if n == 0 then s else TickN(Tick(s), n - 1)
  }

  /** Who runs after each of the next n ticks. */
  function Trace(s: Sched, n: nat): seq<Option<Pid>>
    decreases n
  {
    if n == 0 then [] else [Tick(s).current] + Trace(Tick(s), n - 1)
  }

  function AsTrace(ps: seq<Pid>): (r: seq<Option<Pid>>)
    ensures |r| == |ps|
  {
    if ps == [] then [] else [Some(ps[0])] + AsTrace(ps[1..])
  }

  /** The rest of the epoch runs exactly the owed ticks in exactly their order. */
  lemma {:induction false} EpochPaysOwed(s: Sched)
    requires Steady(s)
    ensures var n := |Owed(s)|;
            Trace(s, n) == AsTrace(Owed(s)) && Steady(TickN(s, n)) && Owed(TickN(s, n)) == [] &&
            Settle(TickN(s, n)) == Settle(s)
    decreases |Owed(s)|
  {
    hide Tick, Owed, Settle, Steady;
    if Owed(s) != [] {
      TickPaysOwed(s);
      EpochPaysOwed(Tick(s));
    }
  }

  lemma {:induction false} RepeatLength(p: Pid, n: nat)
    ensures |Repeat(p, n)| == n
  {
    if n > 0 {
      RepeatLength(p, n - 1);
    }
  }

  lemma {:induction false} CountRepeat(p: Pid, n: nat, x: Pid)
    ensures Count(Repeat(p, n), x) == if x == p then n else 0
  {
    if n > 0 {
      CountRepeat(p, n - 1, x);
    }
  }

  /** A process that is listed once gets exactly rrQuantum + 5 - priority ticks, one that is not gets none. */
  lemma {:induction false} ShareIsExact(s: Sched, order: seq<Pid>, p: Pid)
    requires Count(order, p) <= 1 && Share(s, p) >= 0
    ensures Count(Ticks(s, order), p) == Count(order, p) * Share(s, p)
  {
    if order != [] {
      var n: nat := if Share(s, order[0]) > 0 then Share(s, order[0]) else 0;
      CountRepeat(order[0], n, p);
      CountConcat(Repeat(order[0], n), Ticks(s, order[1..]), p);
      ShareIsExact(s, order[1..], p);
    }
  }

  lemma {:induction false} CountFlat(qs: Queues, x: Pid)
    ensures Count(Flat(qs), x) == CountIn(qs, x)
  {
    if qs != [] {
      CountConcat(qs[0], Flat(qs[1..]), x);
      CountFlat(qs[1..], x);
    }
  }

  /** Exact CPU share and no starvation: in the rest of the epoch every waiting process gets exactly
      rrQuantum + 5 - priority ticks, between 1 + rrQuantum and 5 + rrQuantum of them. */
  lemma EveryReadyProcessGetsItsShare(s: Sched, p: Pid)
    requires Steady(s) && p in Flat(s.running)
    ensures Count(Owed(s), p) == Share(s, p)
    ensures s.rrQuantum + 1 <= Share(s, p) <= s.rrQuantum + 5
  {
    FlatMember(s.running, p);
    CountFlat(s.running, p);
    CountMember(Flat(s.running), p);
    PriorityInRange(s, p);
    assert Once(s, None, p);
    ShareIsExact(s, Flat(s.running), p);
    if s.current.Some? {
      var c := s.current.value;
      CurrentNotQueued(s, c);
      CountRepeat(c, Left(s), p);
      CountConcat(Repeat(c, Left(s)), Ticks(s, Flat(s.running)), p);
    } else {
      assert Owed(s) == Ticks(s, Flat(s.running));
    }
  }
}

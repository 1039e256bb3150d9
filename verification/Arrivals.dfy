/**
 * What a process that joins the ready queues can count on: its exact place in the run order, how many
 * ticks it waits there, and the share it gets when its turn comes.
 */
module Arrivals {
  import opened Options
  import opened Scheduler
  import opened SchedulerInvariant
  import opened SchedulerEvents
  import opened Epochs
  import SchedulerRuns

  // ---------------------------------------------------------------- places in the run order

  /** At the tail of its level: behind everybody of the same or a better level, before everybody else. */
  lemma {:induction false} TailPlace(qs: Queues, k: nat, p: Pid)
    requires k < |qs|
    ensures Flat(qs) == Flat(qs[..k + 1]) + Flat(qs[k + 1..])
    ensures Flat(AddTail(qs, k, p)) == Flat(qs[..k + 1]) + [p] + Flat(qs[k + 1..])
  {
    assert qs[..k + 1][1..] == qs[1..][..k] && qs[k + 1..] == qs[1..][k..];
    if k == 0 {
      assert AddTail(qs, k, p)[1..] == qs[1..];
    } else {
      assert AddTail(qs, k, p)[1..] == AddTail(qs[1..], k - 1, p);
      TailPlace(qs[1..], k - 1, p);
      Regroup(qs[0], Flat(qs[1..][..k]), [p], Flat(qs[k + 1..]));
    }
  }

  /** At the head of its level: behind everybody of a better level, before everybody else. */
  lemma {:induction false} HeadPlace(qs: Queues, k: nat, p: Pid)
    requires k < |qs|
    ensures Flat(qs) == Flat(qs[..k]) + Flat(qs[k..])
    ensures Flat(AddHead(qs, k, p)) == Flat(qs[..k]) + [p] + Flat(qs[k..])
  {
    if k == 0 {
      assert AddHead(qs, k, p)[1..] == qs[1..] && qs[0..] == qs;
      Regroup([p], qs[0], [], Flat(qs[1..]));
    } else {
      assert qs[..k][1..] == qs[1..][..k - 1] && qs[k..] == qs[1..][k - 1..];
      assert AddHead(qs, k, p)[1..] == AddHead(qs[1..], k - 1, p);
      HeadPlace(qs[1..], k - 1, p);
      Regroup(qs[0], Flat(qs[1..][..k - 1]), [p], Flat(qs[k..]));
    }
  }

  lemma Regroup(a: seq<Pid>, b: seq<Pid>, c: seq<Pid>, d: seq<Pid>)
    ensures a + (b + c + d) == a + b + c + d
    ensures a + (b + d) == a + b + d
  {
  }

  // ---------------------------------------------------------------- who joins, and where

  /** p has joined the ready queues of s at the tail of its level, nobody else has moved, and the rest of
      the epoch runs it for its full share. */
  ghost predicate Joins(s: Sched, t: Sched, p: Pid) {
    var k := Priority(t, p);
    0 <= k < |s.running| && Flat(t.running) == Flat(s.running[..k + 1]) + [p] + Flat(s.running[k + 1..]) &&
    t.current == s.current && Steady(t) && Count(Owed(t), p) == Share(t, p)
  }

  lemma JoinsAtTail(s: Sched, t: Sched, p: Pid)
    requires Steady(t) && t.current == s.current && 0 <= Priority(t, p) < |s.running|
    requires t.running == AddTail(s.running, Priority(t, p), p)
    ensures Joins(s, t, p)
  {
    TailPlace(s.running, Priority(t, p), p);
    EveryReadyProcessGetsItsShare(t, p);
  }

  /** A new process runs in the epoch it arrives in. */
  lemma NewcomerJoins(s: Sched, p: Pid)
    requires Steady(s) && p !in s.nodes && Waiting(PcbOf(s, p).state)
    ensures Joins(s, AddProcess(s, p), p)
  {
    AddKeepsInvIff(s, p);
    PriorityInRange(s, p);
    JoinsAtTail(s, AddProcess(s, p), p);
  }

  /** A process that is made ready again runs in the epoch it is woken in. */
  lemma WokenJoins(s: Sched, caller: Pid, p: Pid)
    requires Steady(s) && s.current != Some(p) && PcbOf(s, p).state.BLOCKED?
    ensures Joins(s, SetProcessState(s, caller, p, READY, NO_REASON), p)
  {
    var t := SetProcessState(s, caller, p, READY, NO_REASON);
    SetStateKeepsInvIff(s, caller, p, READY, NO_REASON);
    NotReadyQueued(s, p);
    NothingToUnlink(s.running, p);
    NothingToUnlink(s.finished, p);
    OutsideTableUnborn(s, p);
    PriorityInRange(s, p);
    JoinsAtTail(s, t, p);
  }

  lemma NothingToUnlink(qs: Queues, p: Pid)
    requires LooseIn(qs, p)
    ensures WithoutAll(qs, p) == qs
  {
    forall k | 0 <= k < |qs| ensures Without(qs[k], p) == qs[k] {
      WithoutAbsent(qs[k], p);
    }
  }

  /** A changed priority gives a process that has already had its turn another full one in the same epoch. */
  lemma PriorityChangeGivesAnotherTurn(s: Sched, p: Pid, k: nat, priority: int, nice: bool)
    requires Steady(s) && k < |s.finished| && p in s.finished[k]
    requires 0 <= priority < PRIORITY_LEVELS && priority != Priority(s, p) && !PcbOf(s, p).priorityType.INTERACTIVE?
    ensures Count(Owed(s), p) == 0 && Joins(s, SetProcessPriority(s, p, priority, nice), p)
  {
    var t := SetProcessPriority(s, p, priority, nice);
    FinishedOnly(s, p, k);
    NothingOwed(s, p);
    NothingToUnlink(s.running, p);
    SetPriorityKeepsInvIff(s, p, priority, nice);
    OutsideTableUnborn(s, p);
    JoinsAtTail(s, t, p);
  }

  /** A process in a finished queue is nowhere else. */
  lemma FinishedOnly(s: Sched, p: Pid, k: nat)
    requires Inv(s) && k < |s.finished| && p in s.finished[k]
    ensures LooseIn(s.running, p) && s.current != Some(p) && p in s.nodes
  {
    assert Once(s, None, p);
    CountInMember(s.running, p);
    CountInMember(s.finished, p);
  }

  lemma NothingOwed(s: Sched, p: Pid)
    requires LooseIn(s.running, p) && s.current != Some(p)
    ensures Count(Owed(s), p) == 0
  {
    FlatMember(s.running, p);
    NoTicks(s, Flat(s.running), p);
    if s.current.Some? {
      var c := s.current.value;
      CountRepeat(c, Left(s), p);
      CountConcat(Repeat(c, Left(s)), Ticks(s, Flat(s.running)), p);
    } else {
      assert Owed(s) == Ticks(s, Flat(s.running));
    }
  }

  lemma {:induction false} NoTicks(s: Sched, order: seq<Pid>, p: Pid)
    requires p !in order
    ensures Count(Ticks(s, order), p) == 0
  {
    if order != [] {
      var n: nat := if Share(s, order[0]) > 0 then Share(s, order[0]) else 0;
      CountRepeat(order[0], n, p);
      CountConcat(Repeat(order[0], n), Ticks(s, order[1..]), p);
      NoTicks(s, order[1..], p);
    }
  }

  /** Keyboard preemption: the woken process runs at once, and the one it displaces is first of its level
      with a full share again, however little of its quantum was left. */
  lemma DisplacedRunsFirstOfItsLevel(s: Sched, c: Pid)
    requires Steady(s) && s.current == Some(c) && s.blocked[ReasonIndex(KEYBOARD)] != []
    ensures var t, k := UnblockWaiters(s, KEYBOARD), Priority(s, c);
            t.current == Some(s.blocked[ReasonIndex(KEYBOARD)][0]) && Steady(t) &&
            0 <= k < |s.running| && Flat(t.running) == Flat(s.running[..k]) + [c] + Flat(s.running[k..]) &&
            Count(Owed(t), c) == Share(t, c)
  {
    var t, k := UnblockWaiters(s, KEYBOARD), Priority(s, c);
    var q := s.blocked[ReasonIndex(KEYBOARD)];
    assert q[0] in q && PcbOf(s, q[0]).state.BLOCKED?;
    UnblockKeepsInvIff(s, KEYBOARD);
    PriorityInRange(s, c);
    HeadPlace(s.running, k, c);
    assert t.running == AddHead(s.running, k, c);
    assert t.current == Some(q[0]) && q[0] in t.nodes;
    EveryReadyProcessGetsItsShare(t, c);
  }

  /** A new quantum: the running process keeps what is left of the old one, every waiting process gets the new
      share, in the same order; a quantum that is not positive is refused. */
  lemma NewQuantumReachesTheWaiting(s: Sched, quantum: int, p: Pid)
    requires Steady(s) && p in Flat(s.running)
    ensures var t := SchedulerRuns.Apply(s, SchedulerRuns.NewQuantum(quantum));
            Steady(t) && Pending(t) == Pending(s) && Left(t) == Left(s) &&
            Count(Owed(t), p) == (if quantum > 0 then quantum else s.rrQuantum) + 5 - Priority(s, p)
  {
    var t := SchedulerRuns.Apply(s, SchedulerRuns.NewQuantum(quantum));
    SchedulerRuns.EventKeepsInv(s, SchedulerRuns.NewQuantum(quantum));
    EveryReadyProcessGetsItsShare(t, p);
  }

  // ---------------------------------------------------------------- how long a process waits

  lemma {:induction false} TicksConcat(s: Sched, a: seq<Pid>, b: seq<Pid>)
    ensures Ticks(s, a + b) == Ticks(s, a) + Ticks(s, b)
  {
    if a == [] {
      assert a + b == b;
    } else {
      assert (a + b)[1..] == a[1..] + b;
      TicksConcat(s, a[1..], b);
    }
  }

  lemma {:induction false} AsTraceAt(ps: seq<Pid>, i: nat)
    requires i < |ps|
    ensures AsTrace(ps)[i] == Some(ps[i])
  {
    if i > 0 {
      AsTraceAt(ps[1..], i - 1);
    }
  }

  /** The ticks p waits while the running process and the ones ahead of it use theirs up. */
  function Wait(s: Sched, ahead: seq<Pid>): nat {
    Left(s) + |Ticks(s, ahead)|
  }

  lemma OwedAt(s: Sched, ahead: seq<Pid>, p: Pid, behind: seq<Pid>)
    requires Steady(s) && Flat(s.running) == ahead + [p] + behind && p !in ahead
    ensures Wait(s, ahead) < |Owed(s)| && Owed(s)[Wait(s, ahead)] == p
    ensures forall j :: 0 <= j < Wait(s, ahead) ==> Owed(s)[j] != p
  {
    hide Ticks;
    var now := if s.current.Some? then Repeat(s.current.value, Left(s)) else [];
    var first, rest := Ticks(s, ahead), Ticks(s, [p] + behind);
    assert ahead + [p] + behind == ahead + ([p] + behind);
    TicksConcat(s, ahead, [p] + behind);
    PriorityInRange(s, p);
    TicksStart(s, p, behind);
    assert Owed(s) == now + (first + rest);
    NoTicks(s, ahead, p);
    CountMember(first, p);
    NowWithoutWaiting(s, p, now);
    var w := |now| + |first|;
    assert Owed(s)[w] == rest[0];
    forall j | 0 <= j < w ensures Owed(s)[j] != p {
      assert Owed(s)[j] == if j < |now| then now[j] else first[j - |now|];
    }
  }

  lemma TicksStart(s: Sched, p: Pid, behind: seq<Pid>)
    requires Share(s, p) > 0
    ensures |Ticks(s, [p] + behind)| > 0 && Ticks(s, [p] + behind)[0] == p
  {
    assert ([p] + behind)[1..] == behind;
    assert Repeat(p, Share(s, p))[0] == p;
  }

  lemma NowWithoutWaiting(s: Sched, p: Pid, now: seq<Pid>)
    requires Steady(s) && p in Flat(s.running)
    requires now == if s.current.Some? then Repeat(s.current.value, Left(s)) else []
    ensures |now| == Left(s) && p !in now
  {
    if s.current.Some? {
      var c := s.current.value;
      CurrentNotQueued(s, c);
      CountRepeat(c, Left(s), p);
      CountMember(now, p);
      RepeatLength(c, Left(s));
    }
  }

  /** Exact waiting time: a queued process first runs after exactly the ticks of those ahead of it. */
  lemma WaitIsExact(s: Sched, ahead: seq<Pid>, p: Pid, behind: seq<Pid>)
    requires Steady(s) && Flat(s.running) == ahead + [p] + behind && p !in ahead
    ensures var w, trace := Wait(s, ahead), Trace(s, |Owed(s)|);
            w < |trace| && trace[w] == Some(p) && forall j :: 0 <= j < w ==> trace[j] != Some(p)
  {
    OwedAt(s, ahead, p, behind);
    EpochPaysOwed(s);
    var w := Wait(s, ahead);
    AsTraceAt(Owed(s), w);
    forall j | 0 <= j < w ensures AsTrace(Owed(s))[j] != Some(p) {
      AsTraceAt(Owed(s), j);
    }
  }

  /** No starvation: the wait is at most rrQuantum + 5 ticks for each process ahead, plus what is left of
      the running one's quantum. */
  lemma {:induction false} WaitIsBounded(s: Sched, ahead: seq<Pid>)
    requires Steady(s)
    ensures |Ticks(s, ahead)| <= |ahead| * (s.rrQuantum + 5)
  {
    if ahead != [] {
      var n: nat := if Share(s, ahead[0]) > 0 then Share(s, ahead[0]) else 0;
      RepeatLength(ahead[0], n);
      PriorityInRange(s, ahead[0]);
      WaitIsBounded(s, ahead[1..]);
      assert |ahead| * (s.rrQuantum + 5) == (|ahead| - 1) * (s.rrQuantum + 5) + (s.rrQuantum + 5);
    }
  }
}

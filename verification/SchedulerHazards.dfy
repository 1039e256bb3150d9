/** Each condition that breaks the partition is reachable from the state rrInit leaves, by events the kernel raises. */
module SchedulerHazards {
  import opened Options
  import opened Scheduler
  import opened SchedulerInvariant
  import opened SchedulerEvents
  import opened SchedulerRuns

  /** The control block of the genesis process before it first runs. */
  const GENESIS: Pcb := Pcb(BORN, NO_REASON, 0, NORMAL, true)

  /** p runs, alone in the ready queues, after t turns; nobody waits for the keyboard. */
  ghost predicate Alone(s: Sched, p: Pid, t: nat) {
    Inv(s) && p < |s.pcbs| && IsCurrent(s, p) && s.nodes[p].turns == t && s.blocked[0] == [] &&
    PcbOf(s, p) == Pcb(RUNNING, NO_REASON, 0, NORMAL, true)
  }

  /** The first tick runs the first process. */
  lemma FirstTick(pcbs: seq<Pcb>, p: Pid)
    requires PrioritiesInRange(pcbs) && p < |pcbs| && pcbs[p] == GENESIS
    ensures Raised(Started(pcbs, p), [Timer]) && Run(Started(pcbs, p), [Timer]) == Tick(Started(pcbs, p))
    ensures Alone(Tick(Started(pcbs, p)), p, 0)
    ensures forall q :: q != p ==>
              q !in Tick(Started(pcbs, p)).nodes && PcbOf(Tick(Started(pcbs, p)), q) == PcbIn(pcbs, q)
  {
    var s := Started(pcbs, p);
    StartedIsInv(pcbs, p);
    TickKeepsInv(s);
    TickPicksFirst(s);
    assert s.running[0] == [p];
    assert [Timer][1..] == [];
  }

  /** p waits for a key, which counts a turn. */
  lemma Waits(s: Sched, p: Pid, t: nat)
    requires Alone(s, p, t) && (t + 1) % MAX_TURNS_PER_PRIORITY != 0
    ensures var e := Change(p, p, BLOCKED, KEYBOARD); var u := Apply(s, e);
            Raises(s, e) && Inv(u) && u.current == None && u.blocked[0] == [p] && p in u.nodes &&
            u.nodes[p].turns == t + 1 && PcbOf(u, p) == Pcb(BLOCKED, KEYBOARD, 0, NORMAL, true) && p < |u.pcbs| &&
            (forall k :: 0 <= k < |s.running| ==> u.running[k] == Without(s.running[k], p))
  {
    EventKeepsInv(s, Change(p, p, BLOCKED, KEYBOARD));
  }

  /** A key comes: p runs again at once. */
  lemma Wakes(u: Sched, p: Pid, t: nat)
    requires Inv(u) && u.current == None && u.blocked[0] == [p] && p in u.nodes && u.nodes[p].turns == t
    requires PcbOf(u, p) == Pcb(BLOCKED, KEYBOARD, 0, NORMAL, true) && p < |u.pcbs|
    ensures Raises(u, Wake(KEYBOARD)) && Alone(Apply(u, Wake(KEYBOARD)), p, t)
  {
    EventKeepsInv(u, Wake(KEYBOARD));
  }

  lemma {:induction false} TakesTurns(s: Sched, before: seq<Event>, p: Pid, t: nat) returns (events: seq<Event>)
    requires Raised(s, before) && Alone(Run(s, before), p, t) && t <= 9
    ensures Raised(s, events) && Alone(Run(s, events), p, 9)
    decreases 9 - t
  {
    events := before;
    if t < 9 {
      Waits(Run(s, events), p, t);
      RaisedThen(s, events, Change(p, p, BLOCKED, KEYBOARD));
      events := events + [Change(p, p, BLOCKED, KEYBOARD)];
      Wakes(Run(s, events), p, t + 1);
      RaisedThen(s, events, Wake(KEYBOARD));
      events := events + [Wake(KEYBOARD)];
      events := TakesTurns(s, events, p, t + 1);
    }
  }

  /** On its tenth turn making the running process ready breaks the partition. */
  lemma HazardIsReachable(pcbs: seq<Pcb>, p: Pid) returns (events: seq<Event>)
    requires PrioritiesInRange(pcbs) && p < |pcbs| && pcbs[p] == GENESIS
    ensures Raised(Started(pcbs, p), events)
    ensures var s := Run(Started(pcbs, p), events);
            Accepts(s, p, p, READY) && Hazard(s, p, READY) && !Inv(SetProcessState(s, p, p, READY, MUTEX_BLOCK))
  {
    FirstTick(pcbs, p);
    events := TakesTurns(Started(pcbs, p), [Timer], p, 0);
    SetStateKeepsInvIff(Run(Started(pcbs, p), events), p, p, READY, MUTEX_BLOCK);
  }

  /** p waits for a mutex: its node is freed. */
  lemma LosesNode(s: Sched, p: Pid)
    requires Alone(s, p, 0)
    ensures var e := Change(p, p, BLOCKED, MUTEX_BLOCK); var u := Apply(s, e);
            Raises(s, e) && Inv(u) && Accepts(u, p, p, READY) &&
            WakesZombie(u, p, Requested(PcbOf(u, p), READY, NO_REASON))
  {
    EventKeepsInv(s, Change(p, p, BLOCKED, MUTEX_BLOCK));
  }

  /** A process that is handed to a mutex and woken before the next tick gets a node beside the freed one. */
  lemma ZombieWakeIsReachable(pcbs: seq<Pcb>, p: Pid) returns (events: seq<Event>)
    requires PrioritiesInRange(pcbs) && p < |pcbs| && pcbs[p] == GENESIS
    ensures Raised(Started(pcbs, p), events)
    ensures var s := Run(Started(pcbs, p), events);
            Inv(s) && Accepts(s, p, p, READY) && WakesZombie(s, p, Requested(PcbOf(s, p), READY, NO_REASON)) &&
            !Inv(SetProcessState(s, p, p, READY, NO_REASON))
  {
    hide Alone, Started, Run, Raised, WakesZombie, Accepts, Inv;
    FirstTick(pcbs, p);
    var e := Change(p, p, BLOCKED, MUTEX_BLOCK);
    LosesNode(Run(Started(pcbs, p), [Timer]), p);
    RaisedThen(Started(pcbs, p), [Timer], e);
    events := [Timer] + [e];
    SetStateKeepsInvIff(Run(Started(pcbs, p), events), p, p, READY, NO_REASON);
  }

  /** A negative priority is stored from the very first state on. */
  lemma LeavingLevelsIsReachable(pcbs: seq<Pcb>, p: Pid, nice: bool)
    requires PrioritiesInRange(pcbs) && p < |pcbs| && pcbs[p] == GENESIS
    ensures LeavesLevels(Started(pcbs, p), p, -1) && !Inv(SetProcessPriority(Started(pcbs, p), p, -1, nice))
  {
    StartedIsInv(pcbs, p);
    SetPriorityKeepsInvIff(Started(pcbs, p), p, -1, nice);
  }

  // ---------------------------------------------------------------- a key after a death

  /** Another process is added beside p. */
  lemma Joins(s: Sched, p: Pid, q: Pid)
    requires Alone(s, p, 0) && q != p && q !in s.nodes && Waiting(PcbOf(s, q).state)
    ensures Raises(s, Add(q)) && Alone(Apply(s, Add(q)), p, 0)
    ensures q in Apply(s, Add(q)).running[Priority(s, q)] && 0 <= Priority(s, q) < |Apply(s, Add(q)).running|
  {
    PriorityInRange(s, q);
    EventKeepsInv(s, Add(q));
  }

  /** While p waits for a key somebody else runs, and dies. */
  lemma OtherDies(u: Sched, p: Pid, k: nat) returns (x: Pid)
    requires Inv(u) && u.current == None && u.blocked[0] == [p] && k < |u.running| && u.running[k] != []
    ensures Raises(u, Timer) && Raises(Tick(u), Change(x, x, DEAD, NO_REASON))
    ensures var d := Apply(Tick(u), Change(x, x, DEAD, NO_REASON)); Inv(d) && PreemptsZombie(d, KEYBOARD)
  {
    var v := Tick(u);
    TickKeepsInv(u);
    TickPicksFirst(u);
    assert FirstLevel(u.running) <= k;
    x := v.current.value;
    assert v.blocked == u.blocked && IsCurrent(v, x) && p in v.blocked[0];
    EventKeepsInv(v, Change(x, x, DEAD, NO_REASON));
    var d := Apply(v, Change(x, x, DEAD, NO_REASON));
    assert d.blocked[0] == Without([p], x);
  }

  /** A key that comes between the death of the running process and the next tick breaks the partition. */
  lemma ZombiePreemptionIsReachable(pcbs: seq<Pcb>, p: Pid, q: Pid) returns (events: seq<Event>)
    requires PrioritiesInRange(pcbs) && p < |pcbs| && pcbs[p] == GENESIS
    requires q != p && q < |pcbs| && Waiting(pcbs[q].state)
    ensures Raised(Started(pcbs, p), events)
    ensures var s := Run(Started(pcbs, p), events);
            Inv(s) && PreemptsZombie(s, KEYBOARD) && !Inv(UnblockWaiters(s, KEYBOARD))
  {
    var s := Started(pcbs, p);
    FirstTick(pcbs, p);
    events := [Timer];
    var k: nat := Priority(Run(s, events), q);
    Joins(Run(s, events), p, q);
    RaisedThen(s, events, Add(q));
    events := events + [Add(q)];
    events := ThenBreaks(s, events, p, q, k);
  }

  lemma ThenBreaks(s: Sched, before: seq<Event>, p: Pid, q: Pid, k: nat) returns (events: seq<Event>)
    requires Raised(s, before) && Alone(Run(s, before), p, 0) && k < |Run(s, before).running|
    requires q != p && q in Run(s, before).running[k]
    ensures Raised(s, events)
    ensures var t := Run(s, events); Inv(t) && PreemptsZombie(t, KEYBOARD) && !Inv(UnblockWaiters(t, KEYBOARD))
  {
    var queue := Run(s, before).running[k];
    WithoutMembers(queue, p);
    Waits(Run(s, before), p, 0);
    RaisedThen(s, before, Change(p, p, BLOCKED, KEYBOARD));
    events := before + [Change(p, p, BLOCKED, KEYBOARD)];
    assert q in Run(s, events).running[k];
    var x := OtherDies(Run(s, events), p, k);
    RaisedThen(s, events, Timer);
    events := events + [Timer];
    RaisedThen(s, events, Change(x, x, DEAD, NO_REASON));
    events := events + [Change(x, x, DEAD, NO_REASON)];
    UnblockKeepsInvIff(Run(s, events), KEYBOARD);
  }
}

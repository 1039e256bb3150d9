/** The ageing law through every history: what each kernel event does to the turns and the priority of a process. */
module AgeingLaw {
  import opened Scheduler
  import opened SchedulerInvariant
  import opened SchedulerEvents
  import opened SchedulerRuns
  import opened EpochOrder

  /** The events that end a turn of p: its quantum is used up, or it is taken off the processor. */
  predicate TurnEnds(s: Sched, e: Event, p: Pid) {
    IsCurrent(s, p) && ((e.Timer? && !HandleCurrent(s).1) || (e.Change? && e.p == p && Accepts(s, e.caller, p, e.st)))
  }

  /** A request for another priority of p that is carried out. */
  predicate Reassigns(s: Sched, e: Event, p: Pid) {
    e.Prioritize? && e.p == p && Reprioritizes(PcbOf(s, p), e.priority)
  }

  /** changeToRespectiveQueue ages nobody. */
  lemma ChangeAges(s: Sched, q: Pid, p: Pid)
    requires p in ChangeToRespectiveQueue(s, q).nodes
    ensures p in s.nodes && AgeOf(ChangeToRespectiveQueue(s, q), p) == AgeOf(s, p)
  {
  }

  lemma ZombieRetires(s: Sched)
    requires Inv(s) && Zombie(s)
    ensures !HandleCurrent(s).1 && Retired(s).nodes == s.nodes && Retired(s).pcbs == s.pcbs
  {
    ZombieHasNoNode(s);
  }

  lemma ZombieTimerAges(s: Sched, p: Pid)
    requires Inv(s) && Zombie(s)
    ensures AgeOf(Tick(s), p) == AgeOf(s, p)
  {
    hide Inv, Tick, HandleCurrent, Retired, FirstLevel, Dispatch;
    ZombieRetires(s);
    TickPicksFirst(s);
    var t := SwapIfDrained(Retired(s));
    var k := FirstLevel(t.running);
    if k < |t.running| {
      DispatchAges(t.(running := t.running[k := t.running[k][1..]]), t.running[k][0], p);
    }
  }

  lemma TimerAges(s: Sched, p: Pid)
    requires Inv(s) && p in s.nodes
    ensures AgeOf(Tick(s), p) == if TurnEnds(s, Timer, p) then Turn(AgeOf(s, p)) else AgeOf(s, p)
  {
    hide Tick, Partition, Placed;
    if Zombie(s) {
      ZombieTimerAges(s, p);
    } else {
      TickAges(s, p);
    }
  }

  /** The state setProcessState calls changeToRespectiveQueue in. */
  function Taken(s: Sched, q: Pid, pcb: Pcb): Sched {
    var s0 := WithPcb(s, q, pcb);
    if q !in s.nodes then CreateNode(s0, q) else Unlink(s0, q)
  }

  lemma TakenAges(s: Sched, q: Pid, st: PState, reason: Reason, p: Pid)
    requires p in s.nodes
    ensures var t := Taken(s, q, PcbOf(s, q).(state := st, reason := reason));
            AgeOf(t, p) == AgeOf(s, p) && (IsCurrent(t, q) <==> IsCurrent(s, q)) && t.current == s.current
  {
  }

  lemma ChangeEventAges(s: Sched, caller: Pid, q: Pid, st: PState, reason: Reason, p: Pid)
    requires Inv(s) && p in s.nodes && p in SetProcessState(s, caller, q, st, reason).nodes
    ensures AgeOf(SetProcessState(s, caller, q, st, reason), p) ==
            if TurnEnds(s, Change(caller, q, st, reason), p) then Turn(AgeOf(s, p)) else AgeOf(s, p)
  {
    hide Inv, Unlink, CreateNode;
    if Accepts(s, caller, q, st) {
      OutsideTableUnborn(s, q);
      var effective := EffectiveState(PcbOf(s, q), st, reason);
      var t := Taken(s, q, PcbOf(s, q).(state := effective, reason := reason));
      TakenAges(s, q, effective, reason, p);
      ChangeAges(t, q, p);
    }
  }

  lemma WakeAges(s: Sched, reason: Reason, p: Pid)
    requires Inv(s) && p in s.nodes && p in UnblockWaiters(s, reason).nodes
    ensures AgeOf(UnblockWaiters(s, reason), p) == AgeOf(s, p)
  {
  }

  /** What an event does to the age of a process that keeps its node and its assigned priority. */
  lemma EventAges(s: Sched, e: Event, p: Pid)
    requires Inv(s) && Raises(s, e) && p in s.nodes && p in Apply(s, e).nodes && !Reassigns(s, e, p)
    ensures AgeOf(Apply(s, e), p) == if TurnEnds(s, e, p) then Turn(AgeOf(s, p)) else AgeOf(s, p)
  {
    match e
    case Timer => TimerAges(s, p);
    case Birth(_, _, _, _) =>
    case Add(q) =>
      if q !in s.nodes {
        ChangeAges(CreateNode(s, q), q, p);
      }
    case Change(caller, q, st, reason) => ChangeEventAges(s, caller, q, st, reason, p);
    case Prioritize(q, priority, nice) =>
    case Wake(reason) => WakeAges(s, reason, p);
    case NewQuantum(_) =>
  }

  /** p keeps its node, and nobody assigns it another priority. */
  predicate Persists(s: Sched, events: seq<Event>, p: Pid)
    decreases |events|
  {
    p in s.nodes &&
    (events == [] || (!Reassigns(s, events[0], p) && Persists(Apply(s, events[0]), events[1..], p)))
  }

  /** The ageing law through every history, wake-ups, arrivals and preemptions included: a NORMAL process
      added at priority `start` has priority min(4, start + turns / 10) as long as it persists. */
  lemma {:induction false} RunFollowsLaw(s: Sched, events: seq<Event>, p: Pid, start: nat)
    requires Inv(s) && Raised(s, events) && Persists(s, events, p) && FollowsLaw(AgeOf(s, p), start)
    ensures FollowsLaw(AgeOf(Run(s, events), p), start)
    decreases |events|
  {
    if events != [] {
      EventKeepsInv(s, events[0]);
      EventAges(s, events[0], p);
      TurnFollowsLaw(AgeOf(s, p), start);
      RunFollowsLaw(Apply(s, events[0]), events[1..], p, start);
    }
  }

  /** A process starts with no turns, so the law holds from its arrival on. */
  lemma NewcomerFollowsLaw(s: Sched, p: Pid)
    requires Inv(s) && p !in s.nodes && Waiting(PcbOf(s, p).state) && PcbOf(s, p).priorityType.NORMAL?
    ensures FollowsLaw(AgeOf(AddProcess(s, p), p), Priority(s, p))
  {
    PriorityInRange(s, p);
  }
}

/** The partition invariant over whole histories of kernel events. */
module SchedulerRuns {
  import opened Options
  import opened Scheduler
  import opened SchedulerInvariant
  import opened SchedulerEvents

  datatype Event =
    | Timer
    | Birth(p: Pid, priority: int, kind: PriorityType, foreground: bool)
    | Add(p: Pid)
    | Change(caller: Pid, p: Pid, st: PState, reason: Reason)
    | Prioritize(p: Pid, priority: int, nice: bool)
    | Wake(reason: Reason)
    | NewQuantum(quantum: int)

  /** newProcess writes a fresh control block into a free slot of the process table. */
  function Born(s: Sched, p: Pid, priority: int, kind: PriorityType, foreground: bool): Sched {
    WithPcb(s, p, Pcb(BORN, NO_REASON, priority, kind, foreground))
  }

  function Apply(s: Sched, e: Event): Sched {
    match e
    case Timer => Tick(s)
    case Birth(p, priority, kind, foreground) => Born(s, p, priority, kind, foreground)
    case Add(p) => AddProcess(s, p)
    case Change(caller, p, st, reason) => SetProcessState(s, caller, p, st, reason)
    case Prioritize(p, priority, nice) => SetProcessPriority(s, p, priority, nice)
    case Wake(reason) => UnblockWaiters(s, reason)
    case NewQuantum(quantum) => if quantum > 0 then s.(rrQuantum := quantum) else s
  }

  /** What the rest of the kernel guarantees about the events it raises. */
  predicate Raises(s: Sched, e: Event) {
    match e
    case Timer => true
    case Birth(p, priority, _, _) =>
      p !in s.nodes && s.current != Some(p) && 0 <= priority < PRIORITY_LEVELS &&
      (PcbOf(s, p).state.UN_BORN? || PcbOf(s, p).state.DEAD?)
    case Add(p) => s.current != Some(p) && !PcbOf(s, p).state.RUNNING? && !PcbOf(s, p).state.UN_BORN?
    case Change(_, p, st, reason) => !Breaks(s, p, st, reason)
    case Prioritize(p, priority, _) => !LeavesLevels(s, p, priority)
    case Wake(reason) => !PreemptsZombie(s, reason)
    case NewQuantum(_) => true
  }

  predicate Raised(s: Sched, events: seq<Event>)
    decreases |events|
  {
    events == [] || (Raises(s, events[0]) && Raised(Apply(s, events[0]), events[1..]))
  }

  function Run(s: Sched, events: seq<Event>): Sched
    decreases |events|
  {
    if events == [] then s else Run(Apply(s, events[0]), events[1..])
  }

  /** One more event at the end of a history. */
  lemma {:induction false} RaisedThen(s: Sched, events: seq<Event>, e: Event)
    requires Raised(s, events) && Raises(Run(s, events), e)
    ensures Raised(s, events + [e]) && Run(s, events + [e]) == Apply(Run(s, events), e)
    decreases |events|
  {
    if events == [] {
      assert events + [e] == [e];
    } else {
      assert (events + [e])[1..] == events[1..] + [e];
      RaisedThen(Apply(s, events[0]), events[1..], e);
    }
  }

  /** The static storage: every queue empty, nobody running. */
  function Idle(pcbs: seq<Pcb>): Sched {
    Sched([[], [], [], [], []], [[], [], [], [], []], [[], [], [], []], None, false, map[], pcbs, 4)
  }

  /** rrInit: every queue reset, the first process queued under its priority. */
  function Started(pcbs: seq<Pcb>, first: Pid): Sched
    requires PrioritiesInRange(pcbs) && first < |pcbs|
  {
    var queues := [[], [], [], [], []];
    var priority := pcbs[first].priority;
    Sched(queues[priority := [first]], queues, [[], [], [], []], None, false,
          map[first := Node(4 + (MIN_PRIORITY - priority), 0)], pcbs, 4)
  }

  lemma StartedIsInv(pcbs: seq<Pcb>, first: Pid)
    requires PrioritiesInRange(pcbs) && first < |pcbs| && Waiting(pcbs[first].state)
    ensures Inv(Started(pcbs, first))
  {
    var s, empty: Queues := Started(pcbs, first), [[], [], [], [], []];
    forall x: Pid ensures Once(s, None, x) {
      NothingLinked(empty, x);
      NothingLinked(s.blocked, x);
      CountUpdate(empty, pcbs[first].priority, [first], x);
    }
  }

  lemma {:induction false} NothingLinked(qs: Queues, x: Pid)
    requires forall k :: 0 <= k < |qs| ==> qs[k] == []
    ensures CountIn(qs, x) == 0
  {
    if qs != [] {
      NothingLinked(qs[1..], x);
    }
  }

  lemma EventKeepsInv(s: Sched, e: Event)
    requires Inv(s) && Raises(s, e)
    ensures Inv(Apply(s, e))
  {
    match e
    case Timer => TickKeepsInv(s);
    case Birth(p, priority, kind, foreground) => BirthKeepsInv(s, p, Pcb(BORN, NO_REASON, priority, kind, foreground));
    case Add(p) => AddKeepsInvIff(s, p);
    case Change(caller, p, st, reason) => SetStateKeepsInvIff(s, caller, p, st, reason);
    case Prioritize(p, priority, nice) => SetPriorityKeepsInvIff(s, p, priority, nice);
    case Wake(reason) => UnblockKeepsInvIff(s, reason);
    case NewQuantum(quantum) => SamePartition(s, Apply(s, e), None);
  }

  lemma BirthKeepsInv(s: Sched, p: Pid, pcb: Pcb)
    requires Inv(s) && p !in s.nodes && s.current != Some(p) && 0 <= pcb.priority < PRIORITY_LEVELS
    ensures Inv(WithPcb(s, p, pcb))
  {
    assert Once(s, None, p);
    LooseIffNotLinked(s, p);
    PcbOfLoose(s, p, pcb);
    SamePartition(s, WithPcb(s, p, pcb), None);
  }

  /** newProcess: the priority and its kind that a caller's number stands for. */
  function BirthPriority(code: int): (int, PriorityType) {
    if code == -2 then (0, INTERACTIVE) else if code == -3 then (code, DO_NOT_CHANGE) else (code, NORMAL)
  }

  /** A birth keeps the partition exactly when the accepted number is not the code of a kind that newProcess
      stores as the priority itself: -1 for NORMAL and -3 for DO_NOT_CHANGE. */
  lemma BirthKeepsInvIff(s: Sched, p: Pid, code: int, foreground: bool)
    requires Inv(s) && p < |s.pcbs| && p !in s.nodes && s.current != Some(p) && IsValidPriority(code)
    ensures var (priority, kind) := BirthPriority(code);
            Inv(Born(s, p, priority, kind, foreground)) <==> code != -1 && code != -3
  {
    var (priority, kind) := BirthPriority(code);
    if code != -1 && code != -3 {
      BirthKeepsInv(s, p, Pcb(BORN, NO_REASON, priority, kind, foreground));
    } else {
      assert Priority(Born(s, p, priority, kind, foreground), p) < 0;
    }
  }

  /** After every history: the queues partition the nodes and everything sits where it belongs. */
  lemma {:induction false} RunKeepsInv(s: Sched, events: seq<Event>)
    requires Inv(s) && Raised(s, events)
    ensures Inv(Run(s, events))
    decreases |events|
  {
    if events != [] {
      EventKeepsInv(s, events[0]);
      RunKeepsInv(Apply(s, events[0]), events[1..]);
    }
  }

  /** Spelled out: after every history a process with a node is in exactly one of the running, finished
      and blocked queues or is the running one, and is ready or born exactly on the level of its priority. */
  lemma ExactlyOnePlace(s: Sched, events: seq<Event>, p: Pid)
    requires Inv(s) && Raised(s, events)
    ensures var t := Run(s, events);
            CountIn(t.running, p) + CountIn(t.finished, p) + CountIn(t.blocked, p) + One(IsCurrent(t, p)) ==
            One(p in t.nodes)
    ensures var t := Run(s, events);
            forall k :: 0 <= k < |t.running| && k < |t.finished| && (p in t.running[k] || p in t.finished[k]) ==>
              Priority(t, p) == k && !Gone(PcbOf(t, p).state)
    ensures var t := Run(s, events);
            p in t.nodes && PcbOf(t, p).state.BLOCKED? ==> exists k :: 0 <= k < |t.blocked| && p in t.blocked[k]
  {
    var t := Run(s, events);
    RunKeepsInv(s, events);
    assert Once(t, None, p);
    CountInMember(t.running, p);
    CountInMember(t.finished, p);
    CountInMember(t.blocked, p);
  }
}

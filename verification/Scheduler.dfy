/**
 * The priority round-robin scheduler as a state machine: ready queues per priority (to run and
 * finished), blocked queues per reason, the running node, and what each kernel event does to them.
 * A node of the C code is named by the pid of its process; queues are listed head first.
 */
module Scheduler {
  import opened Options

  type Pid = nat
  type Queues = seq<seq<Pid>>

  const PRIORITY_LEVELS := 5
  const MIN_PRIORITY := 4
  const MAX_TURNS_PER_PRIORITY := 10
  const INIT_PID: Pid := 0

  datatype PState = UN_BORN | BORN | READY | RUNNING | BLOCKED | DEAD
  datatype Reason = KEYBOARD | NO_REASON | MESSAGE_PASSING | MUTEX_BLOCK
  datatype PriorityType = NORMAL | INTERACTIVE | DO_NOT_CHANGE

  /** The part of a process control block the scheduler reads and writes. */
  datatype Pcb = Pcb(state: PState, reason: Reason, priority: int, priorityType: PriorityType, foreground: bool)

  /** rrNode without its links. */
  datatype Node = Node(quantum: int, turns: nat)

  /** The static state of roundRobin.c. A process keeps running when its node is freed under it; `renewed`
      says that it has got another node since, which is not the one `current` points to. */
  datatype Sched = Sched(
    running: Queues, finished: Queues, blocked: Queues,
    current: Option<Pid>, renewed: bool, nodes: map<Pid, Node>, pcbs: seq<Pcb>, rrQuantum: int)

  predicate Gone(st: PState) {
    st.BLOCKED? || st.DEAD?
  }

  /** blockedArr is indexed by the reason's number. */
  function ReasonIndex(r: Reason): (i: nat)
    ensures i < 4
  {
    match r
    case KEYBOARD => 0
    case NO_REASON => 1
    case MESSAGE_PASSING => 2
    case MUTEX_BLOCK => 3
  }

  /** The control block of p; outside the table there is only the unborn one. */
  function PcbIn(pcbs: seq<Pcb>, p: Pid): Pcb {
    if p < |pcbs| then pcbs[p] else Pcb(UN_BORN, NO_REASON, MIN_PRIORITY, NORMAL, false)
  }

  function PcbOf(s: Sched, p: Pid): Pcb {
    PcbIn(s.pcbs, p)
  }

  function WithPcb(s: Sched, p: Pid, pcb: Pcb): Sched {
    if p < |s.pcbs| then s.(pcbs := s.pcbs[p := pcb]) else s
  }

  /** process[p], for a process that has a node. */
  function NodeOf(s: Sched, p: Pid): Node {
    if p in s.nodes then s.nodes[p] else Node(0, 0)
  }

  function WithNode(s: Sched, p: Pid, node: Node): Sched {
    s.(nodes := s.nodes[p := node])
  }

  /** process[x] == current, for a process that has a node. */
  predicate IsCurrent(s: Sched, x: Pid) {
    s.current == Some(x) && x in s.nodes && !s.renewed
  }

  function WithCurrent(s: Sched, c: Option<Pid>): Sched {
    s.(current := c, renewed := false)
  }

  function Priority(s: Sched, p: Pid): int {
    PcbOf(s, p).priority
  }

  // ---------------------------------------------------------------- building blocks

  function AddTail(qs: Queues, k: int, p: Pid): (r: Queues)
    ensures |r| == |qs|
  {
    if 0 <= k < |qs| then qs[k := qs[k] + [p]] else qs
  }

  function AddHead(qs: Queues, k: int, p: Pid): (r: Queues)
    ensures |r| == |qs|
  {
    if 0 <= k < |qs| then qs[k := [p] + qs[k]] else qs
  }

  /** normalQueueRemoveNode on the queue that holds the node; nothing happens to an unlinked node. */
  function Without(q: seq<Pid>, p: Pid): seq<Pid> {
    if q == [] then [] else (if q[0] == p then [] else [q[0]]) + Without(q[1..], p)
  }

  function WithoutAll(qs: Queues, p: Pid): (r: Queues)
    ensures |r| == |qs|
    ensures forall k :: 0 <= k < |r| ==> r[k] == Without(qs[k], p)
  {
    if qs == [] then [] else [Without(qs[0], p)] + WithoutAll(qs[1..], p)
  }

  function Unlink(s: Sched, p: Pid): Sched {
    s.(running := WithoutAll(s.running, p), finished := WithoutAll(s.finished, p), blocked := WithoutAll(s.blocked, p))
  }

  /** directSetProcessState */
  function SetState(s: Sched, p: Pid, st: PState, reason: Reason): Sched {
    WithPcb(s, p, PcbOf(s, p).(state := st, reason := reason))
  }

  function FullQuantum(s: Sched, p: Pid): int {
    s.rrQuantum + (MIN_PRIORITY - Priority(s, p))
  }

  /** createNewNode for a process without a node. */
  function CreateNode(s: Sched, p: Pid): Sched {
    WithNode(s, p, Node(FullQuantum(s, p), 0)).(renewed := s.renewed || s.current == Some(p))
  }

  /** removeNode */
  function RemoveNode(s: Sched, p: Pid): Sched {
    s.(nodes := s.nodes - {p})
  }

  /** setNodeQuantum */
  function SetNodeQuantum(s: Sched, p: Pid): Sched {
    WithNode(s, p, NodeOf(s, p).(quantum := FullQuantum(s, p)))
  }

  /** The priority a process has after one more turn in the processor. */
  function AgedPriority(pcb: Pcb, turns: nat): int {
    if pcb.priorityType.NORMAL? && turns % MAX_TURNS_PER_PRIORITY == 0 && pcb.priority < MIN_PRIORITY
    then pcb.priority + 1 else pcb.priority
  }

  /** updatePriority with reduceProcessPriority. */
  function UpdatePriority(s: Sched, p: Pid): Sched {
    var turns := NodeOf(s, p).turns + 1;
    var s' := WithNode(s, p, NodeOf(s, p).(turns := turns));
    WithPcb(s', p, PcbOf(s, p).(priority := AgedPriority(PcbOf(s, p), turns)))
  }

  /** changeToRespectiveQueue with funcionAuxiliar. */
  function ChangeToRespectiveQueue(s: Sched, p: Pid): Sched {
    var pcb := PcbOf(s, p);
    match pcb.state
    case BORN => SetState(s, p, READY, NO_REASON).(running := AddTail(s.running, pcb.priority, p))
    case READY => s.(running := AddTail(s.running, pcb.priority, p))
    case RUNNING => s
    case BLOCKED =>
      if pcb.reason.MUTEX_BLOCK? || pcb.reason.MESSAGE_PASSING? then RemoveNode(s, p)
      else s.(blocked := AddTail(s.blocked, ReasonIndex(pcb.reason), p))
    case DEAD => RemoveNode(s, p)
    case UN_BORN => s
  }

  // ---------------------------------------------------------------- kernel events

  /** rrAddProcess */
  function AddProcess(s: Sched, p: Pid): Sched {
    if p in s.nodes then s else ChangeToRespectiveQueue(CreateNode(s, p), p)
  }

  /** rrNotifyProcessStateChange. A node that changeToRespectiveQueue freed is still `current` if it was. */
  function NotifyStateChange(s: Sched, p: Pid): Sched {
    var s1 := if p !in s.nodes then CreateNode(s, p) else Unlink(s, p);
    var s2 := ChangeToRespectiveQueue(s1, p);
    if IsCurrent(s2, p) then WithCurrent(UpdatePriority(s2, p), None) else s2
  }

  /** A background process that asks for the keyboard is killed. */
  function EffectiveState(pcb: Pcb, st: PState, reason: Reason): PState {
    if st.BLOCKED? && reason.KEYBOARD? && !pcb.foreground then DEAD else st
  }

  /** The requests setProcessState, called by `caller`, carries out. */
  predicate Accepts(s: Sched, caller: Pid, p: Pid, st: PState) {
    !PcbOf(s, p).state.UN_BORN? && !st.UN_BORN? && PcbOf(s, p).state != st &&
    !(st.DEAD? && p == INIT_PID && p != caller)
  }

  /** setProcessState */
  function SetProcessState(s: Sched, caller: Pid, p: Pid, st: PState, reason: Reason): Sched {
    if !Accepts(s, caller, p, st) then s
    else NotifyStateChange(SetState(s, p, EffectiveState(PcbOf(s, p), st, reason), reason), p)
  }

  /** isValidPriority: a level, or one of the negative codes for a kind of priority. */
  predicate IsValidPriority(priority: int) {
    -3 <= priority < PRIORITY_LEVELS
  }

  /** The requests setProcessPriority carries out. */
  predicate Reprioritizes(pcb: Pcb, priority: int) {
    !pcb.state.UN_BORN? && IsValidPriority(priority) && !pcb.priorityType.INTERACTIVE? && pcb.priority != priority
  }

  /** setProcessPriority with rrNotifyProcessPriorityChange; nice says whether a user asked for it. */
  function SetProcessPriority(s: Sched, p: Pid, priority: int, nice: bool): Sched {
    var pcb := PcbOf(s, p);
    if !Reprioritizes(pcb, priority) then s
    else
      var kind := if nice then DO_NOT_CHANGE else pcb.priorityType;
      var s' := WithPcb(s, p, pcb.(priority := priority, priorityType := kind));
      if p in s.nodes && !IsCurrent(s, p) && !Gone(pcb.state)
      then ChangeToRespectiveQueue(Unlink(s', p), p)
      else s'
  }

  /** preemptProcess */
  function Preempt(s: Sched, p: Pid): Sched {
    var s1 := match s.current
      case None => s
      case Some(c) => SetState(s, c, READY, NO_REASON).(running := AddHead(s.running, Priority(s, c), c));
    WithCurrent(SetNodeQuantum(SetState(s1, p, RUNNING, NO_REASON), p), Some(p))
  }

  /** rrUnblockWaiters */
  function UnblockWaiters(s: Sched, reason: Reason): Sched {
    var k := ReasonIndex(reason);
    if k >= |s.blocked| || s.blocked[k] == [] then s
    else
      var p := s.blocked[k][0];
      var s1 := s.(blocked := s.blocked[k := s.blocked[k][1..]]);
      if PcbOf(s, p).state.DEAD? then ChangeToRespectiveQueue(s1, p)
      else if reason.KEYBOARD? then Preempt(s1, p)
      else ChangeToRespectiveQueue(SetState(s1, p, READY, NO_REASON), p)
  }

  // ---------------------------------------------------------------- the tick

  /** getNextQueueAux: the first level that is not empty, |qs| if all are. */
  function FirstLevel(qs: Queues): (k: nat)
    ensures k <= |qs|
    ensures k < |qs| ==> qs[k] != []
    ensures forall i :: 0 <= i < k ==> qs[i] == []
  {
    if qs == [] then 0 else if qs[0] != [] then 0 else 1 + FirstLevel(qs[1..])
  }

  /** getNextQueue: swap the two structures when nothing is left to run. */
  function SwapIfDrained(s: Sched): Sched {
    if FirstLevel(s.running) == |s.running| then s.(running := s.finished, finished := s.running) else s
  }

  /** The pop loop of getNextReadyNode on level k: blocked and dead nodes are put where they belong. */
  function PopReady(s: Sched, k: nat): (Sched, Option<Pid>)
    decreases if k < |s.running| then |s.running[k]| else 0
  {
    if k >= |s.running| || s.running[k] == [] then (s, None)
    else
      var p := s.running[k][0];
      var s1 := s.(running := s.running[k := s.running[k][1..]]);
      if Gone(PcbOf(s, p).state) then PopReady(ChangeToRespectiveQueue(s1, p), k) else (s1, Some(p))
  }

  /** getNextReadyNode */
  function NextReady(s: Sched): (Sched, Option<Pid>) {
    var s1 := SwapIfDrained(s);
    PopReady(s1, FirstLevel(s1.running))
  }

  /** handleCurrent: the state it leaves and whether the running process goes on. */
  function HandleCurrent(s: Sched): (Sched, bool) {
    match s.current
    case None => (s, false)
    case Some(c) =>
      if Gone(PcbOf(s, c).state) then (ChangeToRespectiveQueue(s, c), false)
      else if NodeOf(s, c).quantum > 0 then
        (WithNode(s, c, NodeOf(s, c).(quantum := NodeOf(s, c).quantum - 1)), true)
      else
        var s1 := SetState(UpdatePriority(s, c), c, READY, NO_REASON);
        (s1.(finished := AddTail(s1.finished, Priority(s1, c), c)), false)
  }

  /** The node chosen by a tick gets a fresh quantum and runs. */
  function Dispatch(s: Sched, p: Pid): Sched {
    WithCurrent(SetState(SetNodeQuantum(s, p), p, RUNNING, NO_REASON), Some(p))
  }

  /** rrNextAvailableProcess: the state after the tick; its `current` runs until the next one. */
  function Tick(s: Sched): Sched {
    var (s1, goesOn) := HandleCurrent(s);
    if goesOn then s1
    else
      var (s2, next) := NextReady(s1);
      match next
      case None => WithCurrent(s2, None)
      case Some(p) => Dispatch(s2, p)
  }
}

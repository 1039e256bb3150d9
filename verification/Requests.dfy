/** What the requests of the rest of the kernel come to for the process itself: its state, its place, its priority. */
module Requests {
  import opened Options
  import opened Scheduler
  import opened SchedulerInvariant
  import opened SchedulerEvents
  import opened SchedulerRuns

  // ---------------------------------------------------------------- a new state

  /** The requests for a new state that are carried out: of a process that was born, for another state than the
      one it is in; and nobody but the genesis process kills the genesis process. */
  predicate Due(s: Sched, caller: Pid, p: Pid, st: PState) {
    p < |s.pcbs| && s.pcbs[p].state != UN_BORN && st != UN_BORN && st != s.pcbs[p].state &&
    (st == DEAD && p == 0 ==> caller == 0)
  }

  /** Every other request changes nothing. */
  lemma OthersChangeNothing(s: Sched, caller: Pid, p: Pid, st: PState, reason: Reason)
    ensures Accepts(s, caller, p, st) <==> Due(s, caller, p, st)
    ensures !Due(s, caller, p, st) ==> SetProcessState(s, caller, p, st, reason) == s
  {
  }

  /** Nobody but p is touched by the control blocks, the nodes and the quantum. */
  ghost predicate OnlyTouches(s: Sched, t: Sched, p: Pid) {
    t.rrQuantum == s.rrQuantum && forall q :: q != p ==> Untouched(s, t, q)
  }

  predicate Untouched(s: Sched, t: Sched, q: Pid) {
    PcbOf(t, q) == PcbOf(s, q) && (q in t.nodes <==> q in s.nodes) && NodeOf(t, q) == NodeOf(s, q)
  }

  /** What stays of the control block in every change of state; its priority may age when a turn ends. */
  predicate SameProcess(was: Pcb, now: Pcb) {
    now.foreground == was.foreground && now.priorityType == was.priorityType
  }

  /** p is at the end of queue k of `queues`, which were `before`, and in no other of them. */
  ghost predicate LastIn(queues: Queues, before: Queues, k: nat, p: Pid) {
    k < |queues| == |before| && queues[k] == Without(before[k], p) + [p] &&
    forall i :: 0 <= i < |queues| && i != k ==> queues[i] == Without(before[i], p)
  }

  ghost predicate GivenUp(t: Sched, p: Pid) {
    p !in t.nodes && Loose(t, p)
  }

  lemma NotifyFrame(s: Sched, p: Pid, pcb: Pcb)
    requires p < |s.pcbs|
    ensures OnlyTouches(s, NotifyStateChange(WithPcb(s, p, pcb), p), p)
  {
    hide WithoutAll;
    var t := NotifyStateChange(WithPcb(s, p, pcb), p);
    forall q | q != p ensures Untouched(s, t, q) {
    }
  }

  /** The process dies: by request, or because it asks for the keyboard from the background. */
  predicate Dies(was: Pcb, st: PState, reason: Reason) {
    st.DEAD? || (st.BLOCKED? && reason.KEYBOARD? && !was.foreground)
  }

  lemma LooseAfterUnlink(s: Sched, p: Pid, pcb: Pcb)
    requires Inv(s) && p < |s.pcbs|
    ensures var s1 := if p in s.nodes then Unlink(WithPcb(s, p, pcb), p) else CreateNode(WithPcb(s, p, pcb), p);
            Loose(s1, p) && p in s1.nodes && PcbOf(s1, p) == pcb
  {
    if p in s.nodes {
      UnlinkClears(s, p);
    } else {
      assert Once(s, None, p);
      LooseIffNotLinked(s, p);
    }
  }

  /** A process that dies has no node and is in no queue. */
  lemma DeathIsComplete(s: Sched, caller: Pid, p: Pid, st: PState, reason: Reason)
    requires Inv(s) && Due(s, caller, p, st) && Dies(PcbOf(s, p), st, reason)
    ensures var t := SetProcessState(s, caller, p, st, reason);
            PcbOf(t, p).state.DEAD? && PcbOf(t, p).reason == reason && SameProcess(PcbOf(s, p), PcbOf(t, p)) &&
            GivenUp(t, p) && OnlyTouches(s, t, p)
  {
    OutsideTableUnborn(s, p);
    var pcb := PcbOf(s, p).(state := DEAD, reason := reason);
    NotifyFrame(s, p, pcb);
    LooseAfterUnlink(s, p, pcb);
  }

  /** A process left to a mutex or to message passing is blocked, without a node. */
  lemma LeftToOthers(s: Sched, caller: Pid, p: Pid, reason: Reason)
    requires Inv(s) && Due(s, caller, p, BLOCKED) && (reason.MUTEX_BLOCK? || reason.MESSAGE_PASSING?)
    ensures var t := SetProcessState(s, caller, p, BLOCKED, reason);
            PcbOf(t, p).state.BLOCKED? && PcbOf(t, p).reason == reason && SameProcess(PcbOf(s, p), PcbOf(t, p)) &&
            GivenUp(t, p) && OnlyTouches(s, t, p)
  {
    OutsideTableUnborn(s, p);
    var pcb := PcbOf(s, p).(state := BLOCKED, reason := reason);
    NotifyFrame(s, p, pcb);
    LooseAfterUnlink(s, p, pcb);
  }

  /** A process that waits for the keyboard from the foreground, or for no reason, is blocked and last in line. */
  lemma WaitsInLine(s: Sched, caller: Pid, p: Pid, reason: Reason)
    requires Inv(s) && Due(s, caller, p, BLOCKED)
    requires reason.NO_REASON? || (reason.KEYBOARD? && PcbOf(s, p).foreground)
    ensures var t, k := SetProcessState(s, caller, p, BLOCKED, reason), if reason.KEYBOARD? then 0 else 1;
            PcbOf(t, p).state.BLOCKED? && PcbOf(t, p).reason == reason && SameProcess(PcbOf(s, p), PcbOf(t, p)) &&
            p in t.nodes && LastIn(t.blocked, s.blocked, k, p) && t.blocked[k] == s.blocked[k] + [p] &&
            LooseIn(t.running, p) && LooseIn(t.finished, p) && OnlyTouches(s, t, p)
  {
    OutsideTableUnborn(s, p);
    var pcb, k: nat := PcbOf(s, p).(state := BLOCKED, reason := reason), if reason.KEYBOARD? then 0 else 1;
    NotifyFrame(s, p, pcb);
    LooseAfterUnlink(s, p, pcb);
    assert p !in s.blocked[k];
    WithoutAbsent(s.blocked[k], p);
    if p !in s.nodes {
      UnlinkOfLoose(s, p);
    }
  }

  /** A process in no queue is not moved by being unlinked. */
  lemma UnlinkOfLoose(s: Sched, p: Pid)
    requires Inv(s) && p !in s.nodes
    ensures forall k :: 0 <= k < |s.running| ==> Without(s.running[k], p) == s.running[k]
    ensures forall k :: 0 <= k < |s.finished| ==> Without(s.finished[k], p) == s.finished[k]
    ensures forall k :: 0 <= k < |s.blocked| ==> Without(s.blocked[k], p) == s.blocked[k]
  {
    assert Once(s, None, p);
    LooseIffNotLinked(s, p);
    forall k | 0 <= k < |s.running| ensures Without(s.running[k], p) == s.running[k] {
      WithoutAbsent(s.running[k], p);
    }
    forall k | 0 <= k < |s.finished| ensures Without(s.finished[k], p) == s.finished[k] {
      WithoutAbsent(s.finished[k], p);
    }
    forall k | 0 <= k < |s.blocked| ensures Without(s.blocked[k], p) == s.blocked[k] {
      WithoutAbsent(s.blocked[k], p);
    }
  }

  lemma LevelOf(s: Sched, p: Pid)
    requires Inv(s) && p < |s.pcbs|
    ensures 0 <= Priority(s, p) < |s.running| == |s.finished|
  {
    PriorityInRange(s, p);
  }

  /** A process that is made ready is ready, born or not, and last of the level of the priority it had. */
  lemma BecomesReady(s: Sched, caller: Pid, p: Pid, st: PState, reason: Reason)
    requires Inv(s) && Due(s, caller, p, st) && (st.READY? || st.BORN?)
    ensures var t := SetProcessState(s, caller, p, st, reason);
            PcbOf(t, p).state.READY? && PcbOf(t, p).reason == (if st.BORN? then NO_REASON else reason) &&
            SameProcess(PcbOf(s, p), PcbOf(t, p)) && p in t.nodes &&
            LastIn(t.running, s.running, Priority(s, p), p) && LooseIn(t.finished, p) && LooseIn(t.blocked, p) &&
            OnlyTouches(s, t, p)
  {
    hide WithoutAll, Inv;
    OutsideTableUnborn(s, p);
    var pcb := PcbOf(s, p).(state := st, reason := reason);
    NotifyFrame(s, p, pcb);
    LooseAfterUnlink(s, p, pcb);
    LevelOf(s, p);
    if p !in s.nodes {
      UnlinkOfLoose(s, p);
    }
  }

  /** What changeToRespectiveQueue does to the node itself: nothing, or it is freed. */
  lemma ChangeKeepsNode(s: Sched, p: Pid)
    ensures var t := ChangeToRespectiveQueue(s, p);
            t.current == s.current && t.renewed == s.renewed &&
            (p in t.nodes ==> p in s.nodes && t.nodes[p] == s.nodes[p])
  {
  }

  lemma NotifyOwn(s: Sched, p: Pid)
    ensures var t := NotifyStateChange(s, p);
            p in t.nodes ==>
              if p in s.nodes then t.nodes[p].quantum == s.nodes[p].quantum
              else t.nodes[p] == Node(FullQuantum(s, p), 0)
    ensures var t := NotifyStateChange(s, p);
            t.current == if IsCurrent(s, p) && p in t.nodes then None else s.current
  {
    hide ChangeToRespectiveQueue, WithoutAll;
    if p in s.nodes {
      ChangeKeepsNode(Unlink(s, p), p);
    } else {
      ChangeKeepsNode(CreateNode(s, p), p);
    }
  }

  /** A process that had a node keeps what is left of its quantum in it; a new node has a full one and no turns. */
  lemma NodeAfterChange(s: Sched, caller: Pid, p: Pid, st: PState, reason: Reason)
    requires Due(s, caller, p, st)
    ensures var t := SetProcessState(s, caller, p, st, reason);
            p in t.nodes ==>
              if p in s.nodes then t.nodes[p].quantum == s.nodes[p].quantum
              else t.nodes[p] == Node(s.rrQuantum + 4 - Priority(s, p), 0)
  {
    hide NotifyStateChange;
    OutsideTableUnborn(s, p);
    NotifyOwn(SetState(s, p, EffectiveState(PcbOf(s, p), st, reason), reason), p);
  }

  /** The running process that changes its state stops running, unless its node is freed: then it runs on
      without one until the next tick. Nobody else starts or stops running. */
  lemma WhoRuns(s: Sched, caller: Pid, p: Pid, st: PState, reason: Reason)
    requires Inv(s) && Due(s, caller, p, st)
    ensures var t := SetProcessState(s, caller, p, st, reason);
            t.current == if s.current == Some(p) && p in s.nodes && p in t.nodes then None else s.current
  {
    hide NotifyStateChange, Inv;
    OutsideTableUnborn(s, p);
    NotifyOwn(SetState(s, p, EffectiveState(PcbOf(s, p), st, reason), reason), p);
    if s.current == Some(p) {
      ZombieOrNot(s, p);
    }
  }

  lemma ZombieOrNot(s: Sched, p: Pid)
    requires Inv(s) && s.current == Some(p)
    ensures p in s.nodes <==> IsCurrent(s, p)
  {
    if !IsCurrent(s, p) {
      ZombieHasNoNode(s);
    }
  }

  // ---------------------------------------------------------------- who dies

  /** The request that p die is carried out. */
  predicate Kills(s: Sched, e: Event, p: Pid) {
    e.Change? && e.p == p && Accepts(s, e.caller, p, e.st) && Dies(PcbOf(s, p), e.st, e.reason)
  }

  lemma TickKillsNobody(s: Sched, p: Pid)
    requires Inv(s) && !PcbOf(s, p).state.DEAD? && !PcbOf(s, p).state.UN_BORN?
    ensures var now := PcbOf(Tick(s), p);
            !now.state.DEAD? && !now.state.UN_BORN? && SameProcess(PcbOf(s, p), now)
  {
    if !HandleCurrent(s).1 {
      TickPicksFirst(s);
      hide HandleCurrent, Inv;
      RetiredKillsNobody(s, p);
    }
  }

  lemma RetiredKillsNobody(s: Sched, p: Pid)
    requires Inv(s) && !HandleCurrent(s).1
    ensures var was, now := PcbOf(s, p), PcbOf(Retired(s), p);
            (now.state == was.state || (now.state.READY? && !was.state.UN_BORN?)) && SameProcess(was, now)
  {
  }

  /** A process dies only by a request that it die, or of a background process for the keyboard, is carried
      out; and nobody changes whether it is in the foreground. */
  lemma OnlyRequestsKill(s: Sched, e: Event, p: Pid)
    requires Inv(s) && Raises(s, e) && !PcbOf(s, p).state.UN_BORN? && !PcbOf(s, p).state.DEAD?
    ensures var now := PcbOf(Apply(s, e), p);
            (now.state.DEAD? <==> Kills(s, e, p)) && !now.state.UN_BORN? && now.foreground == PcbOf(s, p).foreground
  {
    hide Inv, SetProcessPriority, SetProcessState, Tick;
    match e
    case Timer => TickKillsNobody(s, p);
    case Birth(_, _, _, _) =>
    case Add(_) =>
    case Change(caller, q, st, reason) => ChangeKills(s, caller, q, st, reason, p);
    case Prioritize(q, priority, nice) => PriorityKillsNobody(s, q, priority, nice, p);
    case Wake(reason) => WakeKillsNobody(s, reason, p);
    case NewQuantum(_) =>
  }

  lemma ChangeKills(s: Sched, caller: Pid, q: Pid, st: PState, reason: Reason, p: Pid)
    requires Inv(s) && !st.RUNNING? && !PcbOf(s, p).state.UN_BORN? && !PcbOf(s, p).state.DEAD?
    ensures var now := PcbOf(SetProcessState(s, caller, q, st, reason), p);
            (now.state.DEAD? <==> Kills(s, Change(caller, q, st, reason), p)) && !now.state.UN_BORN? &&
            now.foreground == PcbOf(s, p).foreground
  {
    if Accepts(s, caller, q, st) {
      if Dies(PcbOf(s, q), st, reason) {
        DeathIsComplete(s, caller, q, st, reason);
      } else if st.BLOCKED? && (reason.MUTEX_BLOCK? || reason.MESSAGE_PASSING?) {
        LeftToOthers(s, caller, q, reason);
      } else if st.BLOCKED? {
        WaitsInLine(s, caller, q, reason);
      } else {
        BecomesReady(s, caller, q, st, reason);
      }
      var t := SetProcessState(s, caller, q, st, reason);
      assert p != q ==> Untouched(s, t, p);
    }
  }

  lemma PriorityKillsNobody(s: Sched, q: Pid, priority: int, nice: bool, p: Pid)
    requires !PcbOf(s, p).state.UN_BORN? && !PcbOf(s, p).state.DEAD?
    ensures var now := PcbOf(SetProcessPriority(s, q, priority, nice), p);
            !now.state.DEAD? && !now.state.UN_BORN? && now.foreground == PcbOf(s, p).foreground
  {
    hide WithoutAll;
    OutsideTableUnborn(s, p);
  }

  lemma WakeKillsNobody(s: Sched, reason: Reason, p: Pid)
    requires Inv(s) && !PcbOf(s, p).state.UN_BORN? && !PcbOf(s, p).state.DEAD?
    ensures var now := PcbOf(UnblockWaiters(s, reason), p);
            !now.state.DEAD? && !now.state.UN_BORN? && now.foreground == PcbOf(s, p).foreground
  {
    if s.blocked[ReasonIndex(reason)] != [] {
      BlockedPop(s, ReasonIndex(reason));
    }
  }

  /** The genesis process asks for its own death. */
  predicate GenesisGivesUp(e: Event) {
    e.Change? && e.caller == INIT_PID && e.p == INIT_PID && e.st.DEAD?
  }

  /** The genesis process, which is in the foreground, outlives every history in which it does not ask for its
      own death, whoever else asks for it. */
  lemma {:induction false} GenesisLives(s: Sched, events: seq<Event>)
    requires Inv(s) && Raised(s, events) && forall i :: 0 <= i < |events| ==> !GenesisGivesUp(events[i])
    requires var g := PcbOf(s, INIT_PID); !g.state.UN_BORN? && !g.state.DEAD? && g.foreground
    ensures var g := PcbOf(Run(s, events), INIT_PID); !g.state.UN_BORN? && !g.state.DEAD? && g.foreground
    decreases |events|
  {
    if events != [] {
      EventKeepsInv(s, events[0]);
      OnlyRequestsKill(s, events[0], INIT_PID);
      assert !GenesisGivesUp(events[0]);
      forall i | 0 <= i < |events[1..]| ensures !GenesisGivesUp(events[1..][i]) {
        assert events[1..][i] == events[i + 1];
      }
      GenesisLives(Apply(s, events[0]), events[1..]);
    }
  }

  // ---------------------------------------------------------------- dead and blocked processes in a queue

  /** What becomes of a dead or blocked process that turns up in the wrong place: its node is freed, or joins
      its line. In states with the partition none turns up; these hold in every state. */
  ghost predicate PutAway(s: Sched, p: Pid) {
    var pcb := PcbOf(s, p);
    if pcb.state.BLOCKED? && (pcb.reason.KEYBOARD? || pcb.reason.NO_REASON?)
    then |s.blocked| == 4 ==> p in s.blocked[if pcb.reason.KEYBOARD? then 0 else 1]
    else p !in s.nodes
  }

  lemma GoneIsPutAway(s: Sched, p: Pid)
    requires Gone(PcbOf(s, p).state)
    ensures var t := ChangeToRespectiveQueue(s, p);
            PutAway(t, p) && t == s.(nodes := t.nodes, blocked := t.blocked) && |t.blocked| == |s.blocked| &&
            (forall k :: 0 <= k < |t.blocked| ==> t.blocked[k] == s.blocked[k] || t.blocked[k] == s.blocked[k] + [p]) &&
            (t.nodes == s.nodes || t.nodes == s.nodes - {p})
  {
  }

  /** A waiter that was killed in line is dropped, and nobody is woken in its place. */
  lemma DeadWaiterIsDropped(s: Sched, reason: Reason)
    requires |s.blocked| == 4 && s.blocked[ReasonIndex(reason)] != []
    requires PcbOf(s, s.blocked[ReasonIndex(reason)][0]).state.DEAD?
    ensures var t, k := UnblockWaiters(s, reason), ReasonIndex(reason);
            PutAway(t, s.blocked[k][0]) && t.blocked == s.blocked[k := s.blocked[k][1..]] &&
            t == s.(nodes := t.nodes, blocked := t.blocked)
  {
  }

  /** The turn of a running process that died or blocked ends, and it is put away. */
  lemma GoneEndsItsTurn(s: Sched, c: Pid)
    requires s.current == Some(c) && Gone(PcbOf(s, c).state)
    ensures var (t, goesOn) := HandleCurrent(s);
            !goesOn && PutAway(t, c) && t == s.(nodes := t.nodes, blocked := t.blocked)
  {
    GoneIsPutAway(s, c);
  }

  /** Of a level the first process that may run is taken; those before it are put away, those behind it stay. */
  lemma {:induction false} SkipsGone(s: Sched, k: nat) returns (n: nat)
    requires k < |s.running|
    ensures var (t, next), q := PopReady(s, k), s.running[k];
            n <= |q| && (forall i :: 0 <= i < n ==> Gone(PcbOf(s, q[i]).state) && PutAway(t, q[i])) &&
            (if n < |q|
             then next == Some(q[n]) && !Gone(PcbOf(s, q[n]).state) && t.running == s.running[k := q[n + 1..]]
             else next == None && t.running == s.running[k := []])
    ensures var t := PopReady(s, k).0; t == s.(running := t.running, nodes := t.nodes, blocked := t.blocked)
    ensures var t := PopReady(s, k).0; |t.blocked| == |s.blocked| && t.nodes.Keys <= s.nodes.Keys
    ensures var t := PopReady(s, k).0; forall i, p :: 0 <= i < |s.blocked| && p in s.blocked[i] ==> p in t.blocked[i]
    decreases |s.running[k]|
  {
    var q := s.running[k];
    if q == [] {
      n := 0;
      assert s.running[k := []] == s.running;
    } else if !Gone(PcbOf(s, q[0]).state) {
      n := 0;
    } else {
      var s1 := s.(running := s.running[k := q[1..]]);
      var s2 := ChangeToRespectiveQueue(s1, q[0]);
      GoneIsPutAway(s1, q[0]);
      var m := SkipsGone(s2, k);
      n := m + 1;
      assert s2.running[k] == q[1..];
    }
  }

  // ---------------------------------------------------------------- a new priority

  /** The requests for another priority that are carried out: a level or one of the three negative codes, for a
      process that was born, is not interactive and has another priority. */
  predicate Fits(s: Sched, p: Pid, priority: int) {
    p < |s.pcbs| && s.pcbs[p].state != UN_BORN && s.pcbs[p].priorityType != INTERACTIVE &&
    -3 <= priority <= 4 && priority != s.pcbs[p].priority
  }

  /** Exactly those requests change anything. */
  lemma PriorityChangesIffItFits(s: Sched, p: Pid, priority: int, nice: bool)
    ensures SetProcessPriority(s, p, priority, nice) != s <==> Fits(s, p, priority)
  {
    if Fits(s, p, priority) {
      assert Priority(SetProcessPriority(s, p, priority, nice), p) == priority;
    }
  }

  /** An accepted priority is stored, whoever has the process; a nice one is kept from ageing, any other leaves
      the kind of priority alone; and a born process that is moved is ready. */
  lemma PriorityIsStored(s: Sched, p: Pid, priority: int, nice: bool)
    requires Inv(s) && Fits(s, p, priority)
    ensures var t, was := SetProcessPriority(s, p, priority, nice), PcbOf(s, p); var now := PcbOf(t, p);
            now.priority == priority && now.foreground == was.foreground && OnlyTouches(s, t, p) &&
            (nice ==> now.priorityType.DO_NOT_CHANGE?) && (!nice ==> now.priorityType == was.priorityType) &&
            (now.state == was.state || (was.state.BORN? && now.state.READY? && p in s.nodes)) &&
            t.current == s.current && NodeOf(t, p) == NodeOf(s, p) && (p in t.nodes <==> p in s.nodes)
  {
    OutsideTableUnborn(s, p);
    var t := SetProcessPriority(s, p, priority, nice);
    forall q | q != p ensures Untouched(s, t, q) {
    }
    if p in s.nodes && !IsCurrent(s, p) {
      if s.current == Some(p) {
        ZombieHasNoNode(s);
      }
      NodeIsQueued(s, p);
    }
  }

  /** A queued process goes to the end of its new level; the running one, a blocked one and one without a node
      stay where they are. */
  lemma WhoMoves(s: Sched, p: Pid, priority: int, nice: bool)
    requires Inv(s) && Fits(s, p, priority) && priority >= 0
    ensures var t := SetProcessPriority(s, p, priority, nice);
            if p in s.nodes && s.current != Some(p) && !PcbOf(s, p).state.BLOCKED?
            then LastIn(t.running, s.running, priority, p) && LooseIn(t.finished, p) && LooseIn(t.blocked, p)
            else t.running == s.running && t.finished == s.finished && t.blocked == s.blocked
  {
    OutsideTableUnborn(s, p);
    if p in s.nodes {
      if s.current == Some(p) {
        ZombieOrNot(s, p);
      } else {
        NodeIsQueued(s, p);
        UnlinkClears(s, p);
      }
    }
  }

  /** Somebody assigns p a priority: by request, or with its birth. */
  predicate Assigns(s: Sched, e: Event, p: Pid) {
    (e.Prioritize? && e.p == p && Fits(s, p, e.priority)) || (e.Birth? && e.p == p)
  }

  predicate NeverAssigned(s: Sched, events: seq<Event>, p: Pid)
    decreases |events|
  {
    events == [] || (!Assigns(s, events[0], p) && NeverAssigned(Apply(s, events[0]), events[1..], p))
  }

  lemma TickKeepsAssigned(s: Sched, p: Pid)
    requires Inv(s) && !PcbOf(s, p).priorityType.NORMAL?
    ensures Priority(Tick(s), p) == Priority(s, p) && PcbOf(Tick(s), p).priorityType == PcbOf(s, p).priorityType
  {
    if !HandleCurrent(s).1 {
      TickPicksFirst(s);
      hide HandleCurrent, Inv;
      RetiredKeepsAssigned(s, p);
    }
  }

  lemma RetiredKeepsAssigned(s: Sched, p: Pid)
    requires Inv(s) && !HandleCurrent(s).1 && !PcbOf(s, p).priorityType.NORMAL?
    ensures Priority(Retired(s), p) == Priority(s, p)
    ensures PcbOf(Retired(s), p).priorityType == PcbOf(s, p).priorityType
  {
  }

  lemma EventKeepsAssigned(s: Sched, e: Event, p: Pid)
    requires Inv(s) && Raises(s, e) && !Assigns(s, e, p) && !PcbOf(s, p).priorityType.NORMAL?
    ensures Priority(Apply(s, e), p) == Priority(s, p)
    ensures PcbOf(Apply(s, e), p).priorityType == PcbOf(s, p).priorityType
  {
    hide Inv;
    match e
    case Timer => TickKeepsAssigned(s, p);
    case Birth(_, _, _, _) =>
    case Add(_) =>
    case Change(caller, q, st, reason) => ChangeKeepsAssigned(s, caller, q, st, reason, p);
    case Prioritize(q, _, _) =>
    case Wake(reason) => WakeKeepsAssigned(s, reason, p);
    case NewQuantum(_) =>
  }

  lemma ChangeKeepsAssigned(s: Sched, caller: Pid, q: Pid, st: PState, reason: Reason, p: Pid)
    requires !PcbOf(s, p).priorityType.NORMAL?
    ensures var t := SetProcessState(s, caller, q, st, reason);
            Priority(t, p) == Priority(s, p) && PcbOf(t, p).priorityType == PcbOf(s, p).priorityType
  {
    hide WithoutAll;
    if Accepts(s, caller, q, st) {
      OutsideTableUnborn(s, q);
      var pcb := Requested(PcbOf(s, q), st, reason);
      assert SetState(s, q, pcb.state, reason) == WithPcb(s, q, pcb);
      if p != q {
        NotifyFrame(s, q, pcb);
        assert Untouched(s, NotifyStateChange(WithPcb(s, q, pcb), q), p);
      }
    }
  }

  lemma WakeKeepsAssigned(s: Sched, reason: Reason, p: Pid)
    ensures var t := UnblockWaiters(s, reason);
            Priority(t, p) == Priority(s, p) && PcbOf(t, p).priorityType == PcbOf(s, p).priorityType
  {
  }

  /** A priority that is not NORMAL stays as it is through every history in which nobody assigns another. */
  lemma {:induction false} AssignedStays(s: Sched, events: seq<Event>, p: Pid)
    requires Inv(s) && Raised(s, events) && NeverAssigned(s, events, p) && !PcbOf(s, p).priorityType.NORMAL?
    ensures Priority(Run(s, events), p) == Priority(s, p)
    ensures PcbOf(Run(s, events), p).priorityType == PcbOf(s, p).priorityType
    decreases |events|
  {
    if events != [] {
      EventKeepsInv(s, events[0]);
      EventKeepsAssigned(s, events[0], p);
      AssignedStays(Apply(s, events[0]), events[1..], p);
    }
  }

  /** The nice system call: the priority it gives is the one the process has after every history in which
      nobody gives it another, however many turns it takes. */
  lemma NiceStays(s: Sched, p: Pid, priority: int, events: seq<Event>)
    requires Inv(s) && Fits(s, p, priority) && priority >= 0
    requires var t := SetProcessPriority(s, p, priority, true); Raised(t, events) && NeverAssigned(t, events, p)
    ensures Priority(Run(SetProcessPriority(s, p, priority, true), events), p) == priority
  {
    PriorityIsStored(s, p, priority, true);
    SetPriorityKeepsInvIff(s, p, priority, true);
    AssignedStays(SetProcessPriority(s, p, priority, true), events, p);
  }

  /** p is not born anew. */
  predicate NoBirth(events: seq<Event>, p: Pid) {
    forall i :: 0 <= i < |events| && events[i].Birth? ==> events[i].p != p
  }

  lemma NoBirthTail(events: seq<Event>, p: Pid)
    requires events != [] && NoBirth(events, p)
    ensures NoBirth(events[1..], p)
  {
    forall i | 0 <= i < |events[1..]| && events[1..][i].Birth? ensures events[1..][i].p != p {
      assert events[1..][i] == events[i + 1];
    }
  }

  /** Nothing at all changes the priority of an interactive process in its lifetime. */
  lemma {:induction false} InteractiveStays(s: Sched, events: seq<Event>, p: Pid)
    requires Inv(s) && Raised(s, events) && NoBirth(events, p) && PcbOf(s, p).priorityType.INTERACTIVE?
    ensures Priority(Run(s, events), p) == Priority(s, p) && PcbOf(Run(s, events), p).priorityType.INTERACTIVE?
    decreases |events|
  {
    if events != [] {
      assert events[0].Birth? ==> events[0].p != p;
      NoBirthTail(events, p);
      EventKeepsInv(s, events[0]);
      EventKeepsAssigned(s, events[0], p);
      InteractiveStays(Apply(s, events[0]), events[1..], p);
    }
  }

  // ---------------------------------------------------------------- from birth on

  lemma EventKeepsGround(s: Sched, e: Event, p: Pid)
    requires Inv(s) && Raises(s, e) && !(e.Birth? && e.p == p)
    ensures PcbOf(Apply(s, e), p).foreground == PcbOf(s, p).foreground
  {
    hide Inv;
    match e
    case Timer => TickKeepsGround(s, p);
    case Birth(_, _, _, _) =>
    case Add(_) =>
    case Change(caller, q, st, reason) =>
      if Accepts(s, caller, q, st) {
        OutsideTableUnborn(s, q);
        ChangeKeepsGround(s, q, Requested(PcbOf(s, q), st, reason), p);
      }
    case Prioritize(_, _, _) =>
    case Wake(reason) => WakeKeepsGround(s, reason, p);
    case NewQuantum(_) =>
  }

  lemma TickKeepsGround(s: Sched, p: Pid)
    requires Inv(s)
    ensures PcbOf(Tick(s), p).foreground == PcbOf(s, p).foreground
  {
    if !HandleCurrent(s).1 {
      TickPicksFirst(s);
      hide HandleCurrent, Inv;
      RetiredKillsNobody(s, p);
    }
  }

  lemma ChangeKeepsGround(s: Sched, q: Pid, pcb: Pcb, p: Pid)
    requires q < |s.pcbs| && pcb.foreground == PcbOf(s, q).foreground
    ensures PcbOf(NotifyStateChange(WithPcb(s, q, pcb), q), p).foreground == PcbOf(s, p).foreground
  {
    hide WithoutAll;
    if p != q {
      NotifyFrame(s, q, pcb);
      assert Untouched(s, NotifyStateChange(WithPcb(s, q, pcb), q), p);
    }
  }

  lemma WakeKeepsGround(s: Sched, reason: Reason, p: Pid)
    ensures PcbOf(UnblockWaiters(s, reason), p).foreground == PcbOf(s, p).foreground
  {
  }

  lemma {:induction false} GroundStays(s: Sched, events: seq<Event>, p: Pid)
    requires Inv(s) && Raised(s, events) && NoBirth(events, p)
    ensures PcbOf(Run(s, events), p).foreground == PcbOf(s, p).foreground
    decreases |events|
  {
    if events != [] {
      assert events[0].Birth? ==> events[0].p != p;
      NoBirthTail(events, p);
      EventKeepsInv(s, events[0]);
      EventKeepsGround(s, events[0], p);
      GroundStays(Apply(s, events[0]), events[1..], p);
    }
  }

  /** A newborn is born, and what it is born with decides its life: whether it is in the foreground, to its
      end; a priority that is not NORMAL, until another is assigned. */
  lemma BornFor(s: Sched, p: Pid, priority: int, kind: PriorityType, foreground: bool, events: seq<Event>)
    requires Inv(s) && p < |s.pcbs| && Raises(s, Birth(p, priority, kind, foreground))
    requires var t := Apply(s, Birth(p, priority, kind, foreground)); Raised(t, events) && NoBirth(events, p)
    ensures var t := Apply(s, Birth(p, priority, kind, foreground)); var now := PcbOf(Run(t, events), p);
            OnlyTouches(s, t, p) && PcbOf(t, p).state.BORN? && Priority(t, p) == priority &&
            now.foreground == foreground &&
            (kind.INTERACTIVE? || (kind.DO_NOT_CHANGE? && NeverAssigned(t, events, p)) ==> now.priority == priority)
  {
    var e := Birth(p, priority, kind, foreground);
    var t := Apply(s, e);
    EventKeepsInv(s, e);
    GroundStays(t, events, p);
    forall q | q != p ensures Untouched(s, t, q) {
    }
    if kind.INTERACTIVE? {
      InteractiveStays(t, events, p);
    } else if kind.DO_NOT_CHANGE? && NeverAssigned(t, events, p) {
      AssignedStays(t, events, p);
    }
  }
}

/** Every kernel event keeps the partition invariant, or exactly when it does not. */
module SchedulerEvents {
  import opened Options
  import opened Scheduler
  import opened SchedulerInvariant

  // ---------------------------------------------------------------- taking a process in hand

  /** The state with the process under change in hand: its new control block, no queue, not current. */
  function InHand(s: Sched, p: Pid, pcb: Pcb): Sched {
    var s0 := WithPcb(s, p, pcb);
    var s1 := if p in s.nodes then Unlink(s0, p) else CreateNode(s0, p);
    if s.current == Some(p) then WithCurrent(s1, None) else s1
  }

  lemma TakesInHand(s: Sched, p: Pid, pcb: Pcb)
    requires Placed(s) && Partition(s, None) && 0 <= pcb.priority < PRIORITY_LEVELS
    ensures Placed(InHand(s, p, pcb)) && Partition(InHand(s, p, pcb), Some(p))
    ensures PcbOf(InHand(s, p, pcb), p) == PcbOf(WithPcb(s, p, pcb), p)
    ensures forall x :: x != p ==> PcbOf(InHand(s, p, pcb), x) == PcbOf(s, x)
  {
    assert Once(s, None, p);
    if p in s.nodes {
      UnlinkClears(s, p);
      PcbOfLoose(Unlink(s, p), p, pcb);
    } else {
      LooseIffNotLinked(s, p);
      PcbOfLoose(s, p, pcb);
    }
    HandPartition(s, p, pcb);
  }

  lemma HandPartition(s: Sched, p: Pid, pcb: Pcb)
    requires Placed(s) && Partition(s, None)
    ensures Partition(InHand(s, p, pcb), Some(p))
  {
    var t := InHand(s, p, pcb);
    if p in s.nodes {
      UnlinkClears(s, p);
    }
    forall x: Pid ensures Once(t, Some(p), x) {
      assert Once(s, None, x);
    }
  }

  /** changeToRespectiveQueue does not look at `current`. */
  lemma ChangeIgnoresCurrent(s: Sched, p: Pid, c: Option<Pid>)
    ensures ChangeToRespectiveQueue(WithCurrent(s, c), p) == WithCurrent(ChangeToRespectiveQueue(s, p), c)
  {
  }

  /** rrNotifyProcessStateChange in terms of the process in hand. */
  lemma NotifyIsInHand(s: Sched, p: Pid, pcb: Pcb)
    requires s.current == Some(p) ==> IsCurrent(s, p)
    ensures var t := ChangeToRespectiveQueue(InHand(s, p, pcb), p);
            NotifyStateChange(WithPcb(s, p, pcb), p) ==
            if s.current != Some(p) then t
            else if p in t.nodes then UpdatePriority(t, p)
            else WithCurrent(t, Some(p))
  {
    var s0 := WithPcb(s, p, pcb);
    var s1 := if p in s.nodes then Unlink(s0, p) else CreateNode(s0, p);
    var s2 := ChangeToRespectiveQueue(s1, p);
    ChangeIgnoresCurrent(s1, p, None);
    ChangeFrame(s1, p);
    if s.current == Some(p) {
      assert InHand(s, p, pcb) == WithCurrent(s1, None);
      TurnIgnoresCurrent(s2, p);
    } else {
      assert InHand(s, p, pcb) == s1;
    }
  }

  lemma TurnIgnoresCurrent(s: Sched, p: Pid)
    ensures WithCurrent(UpdatePriority(s, p), None) == UpdatePriority(WithCurrent(s, None), p)
  {
  }

  // ---------------------------------------------------------------- a turn ends

  /** Another turn for a process in no ready queue, or one whose priority does not change, keeps all places. */
  lemma TurnKeeps(s: Sched, p: Pid)
    requires Placed(s) && Partition(s, None) && p in s.nodes
    requires PcbOf(s, p).state.BLOCKED? || AgedPriority(PcbOf(s, p), s.nodes[p].turns + 1) == Priority(s, p)
    ensures Placed(UpdatePriority(s, p)) && Partition(UpdatePriority(s, p), None)
  {
    var t := UpdatePriority(s, p);
    if PcbOf(s, p).state.BLOCKED? {
      assert LooseIn(s.running, p) && LooseIn(s.finished, p);
      LoosePlaced(s.running, p, s.pcbs, t.pcbs);
      LoosePlaced(s.finished, p, s.pcbs, t.pcbs);
      SameStates(s, t);
    } else {
      assert forall x :: PcbIn(t.pcbs, x) == PcbIn(s.pcbs, x);
    }
    SamePartition(s, t, None);
  }

  /** The partition depends on the queues, on who has a node and on who is the current node. */
  lemma SamePartition(s: Sched, t: Sched, inHand: Option<Pid>)
    requires Partition(s, inHand) && t.running == s.running && t.finished == s.finished && t.blocked == s.blocked
    requires t.nodes.Keys == s.nodes.Keys && forall x :: IsCurrent(t, x) == IsCurrent(s, x)
    ensures Partition(t, inHand)
  {
    forall x: Pid ensures Once(t, inHand, x) {
      assert Once(s, inHand, x);
    }
  }

  /** The blocked queues depend on states and reasons only. */
  lemma SameStates(s: Sched, t: Sched)
    requires forall x ::
               PcbIn(t.pcbs, x).state == PcbIn(s.pcbs, x).state && PcbIn(t.pcbs, x).reason == PcbIn(s.pcbs, x).reason
    ensures BlockedPlaced(s.blocked, s.pcbs) ==> BlockedPlaced(s.blocked, t.pcbs)
  {
  }

  /** Ageing a process while it waits in a ready queue leaves it on the wrong level. */
  lemma TurnMisplaces(s: Sched, p: Pid, k: nat)
    requires k < |s.running| && p in s.running[k] && PcbOf(s, p).priority == k && p < |s.pcbs|
    requires AgedPriority(PcbOf(s, p), NodeOf(s, p).turns + 1) != Priority(s, p)
    ensures !Placed(UpdatePriority(s, p))
  {
    var t := UpdatePriority(s, p);
    assert p in t.running[k] && PcbIn(t.pcbs, p).priority != k;
  }

  // ---------------------------------------------------------------- state changes

  /** The running process is made ready from outside on the very turn on which it ages: it is queued under
      its old priority before updatePriority runs. */
  predicate Hazard(s: Sched, p: Pid, st: PState) {
    IsCurrent(s, p) && Waiting(st) && AgedPriority(PcbOf(s, p), s.nodes[p].turns + 1) != Priority(s, p)
  }

  /** The running process is woken between its death or blocking and the next tick: it gets a second node,
      while the one that is run is gone. */
  predicate WakesZombie(s: Sched, p: Pid, pcb: Pcb) {
    Zombie(s) && s.current == Some(p) && !HandedOver(pcb)
  }

  /** The control block that setProcessState writes. */
  function Requested(was: Pcb, st: PState, reason: Reason): Pcb {
    was.(state := EffectiveState(was, st, reason), reason := reason)
  }

  /** The requests that break the partition; state RUNNING leaves the process in no queue. */
  predicate Breaks(s: Sched, p: Pid, st: PState, reason: Reason) {
    st.RUNNING? || Hazard(s, p, st) || WakesZombie(s, p, Requested(PcbOf(s, p), st, reason))
  }

  lemma OutsideTableUnborn(s: Sched, p: Pid)
    requires !PcbOf(s, p).state.UN_BORN?
    ensures p < |s.pcbs|
  {
  }

  /** Exactly when setProcessState keeps the invariant. */
  lemma SetStateKeepsInvIff(s: Sched, caller: Pid, p: Pid, st: PState, reason: Reason)
    requires Inv(s)
    ensures Inv(SetProcessState(s, caller, p, st, reason)) <==> !(Accepts(s, caller, p, st) && Breaks(s, p, st, reason))
  {
    if Accepts(s, caller, p, st) {
      var was := PcbOf(s, p);
      var pcb := Requested(was, st, reason);
      OutsideTableUnborn(s, p);
      assert SetState(s, p, pcb.state, reason) == WithPcb(s, p, pcb);
      if st.RUNNING? {
        RunningIsLost(s, p, pcb);
      } else if s.current != Some(p) {
        ChangeOfOther(s, p, pcb);
      } else if Zombie(s) {
        ChangeOfZombie(s, p, pcb);
      } else {
        ChangeOfCurrent(s, p, pcb);
      }
    }
  }

  /** Requested state RUNNING: the process is taken off its queue and put nowhere. */
  lemma RunningIsLost(s: Sched, p: Pid, pcb: Pcb)
    requires Inv(s) && p < |s.pcbs| && pcb.state.RUNNING? && pcb.priority == Priority(s, p)
    ensures !Inv(NotifyStateChange(WithPcb(s, p, pcb), p))
  {
    var s0 := WithPcb(s, p, pcb);
    var t := NotifyStateChange(s0, p);
    if Zombie(s) && s.current == Some(p) {
      ZombieHasNoNode(s);
      assert t.current == Some(p) && t.renewed && PcbOf(t, p).state.RUNNING?;
    } else {
      var s1 := if p in s.nodes then Unlink(s0, p) else CreateNode(s0, p);
      assert Once(s, None, p);
      if p in s.nodes {
        UnlinkClearsLinks(s0, p);
      }
      assert Linked(s1, p) == 0 && p in s1.nodes;
      assert !Once(t, None, p);
    }
  }

  lemma UnlinkClearsLinks(s: Sched, p: Pid)
    ensures Linked(Unlink(s, p), p) == 0
  {
    CountWithoutAll(s.running, p, p);
    CountWithoutAll(s.finished, p, p);
    CountWithoutAll(s.blocked, p, p);
  }

  /** A new state for a running process whose node is gone: it gets another node, and loses it again
      exactly when the scheduler does not keep it. */
  lemma ChangeOfZombie(s: Sched, p: Pid, pcb: Pcb)
    requires Inv(s) && Zombie(s) && s.current == Some(p) && p < |s.pcbs|
    requires pcb.priority == Priority(s, p) && !pcb.state.UN_BORN? && !pcb.state.RUNNING?
    ensures Inv(NotifyStateChange(WithPcb(s, p, pcb), p)) <==> HandedOver(pcb)
  {
    var t := NotifyStateChange(WithPcb(s, p, pcb), p);
    ZombieHasNoNode(s);
    PriorityInRange(s, p);
    if HandedOver(pcb) {
      assert Once(s, None, p);
      LooseIffNotLinked(s, p);
      PcbOfLoose(s, p, pcb);
      assert t.nodes.Keys == s.nodes.Keys;
      SamePartition(s, t, None);
    } else {
      assert t.current == Some(p) && t.renewed && !HandedOver(PcbOf(t, p));
    }
  }

  lemma ChangeOfOther(s: Sched, p: Pid, pcb: Pcb)
    requires Inv(s) && s.current != Some(p) && p < |s.pcbs|
    requires pcb.priority == Priority(s, p) && !pcb.state.UN_BORN? && !pcb.state.RUNNING?
    ensures Inv(NotifyStateChange(WithPcb(s, p, pcb), p))
  {
    var t := InHand(s, p, pcb);
    PriorityInRange(s, p);
    TakesInHand(s, p, pcb);
    NotifyIsInHand(s, p, pcb);
    ChangePlaces(t, p);
    ChangeFrame(t, p);
  }

  lemma ChangeOfCurrent(s: Sched, p: Pid, pcb: Pcb)
    requires Inv(s) && IsCurrent(s, p) && p < |s.pcbs|
    requires pcb.priority == Priority(s, p) && pcb.priorityType == PcbOf(s, p).priorityType
    requires !pcb.state.UN_BORN? && !pcb.state.RUNNING?
    ensures Inv(NotifyStateChange(WithPcb(s, p, pcb), p)) <==> !Hazard(s, p, pcb.state)
  {
    var t := InHand(s, p, pcb);
    var t' := ChangeToRespectiveQueue(t, p);
    PriorityInRange(s, p);
    TakesInHand(s, p, pcb);
    NotifyIsInHand(s, p, pcb);
    ChangePlaces(t, p);
    ChangeFrame(t, p);
    if HandedOver(pcb) {
      SamePartition(t', WithCurrent(t', Some(p)), None);
    } else {
      CurrentLeaves(s, t, t', p);
    }
  }

  /** The running process is queued by a notification and its turn counted afterwards. */
  lemma CurrentLeaves(s: Sched, t: Sched, t': Sched, p: Pid)
    requires p < |s.pcbs| && t.nodes == s.nodes
    requires PcbOf(t, p).priority == Priority(s, p) && PcbOf(t, p).priorityType == PcbOf(s, p).priorityType
    requires p < |t.pcbs| && !PcbOf(t, p).state.UN_BORN? && !PcbOf(t, p).state.RUNNING?
    requires t' == ChangeToRespectiveQueue(t, p) && p in t'.nodes
    requires Placed(t) && Placed(t') && Partition(t', None) && t'.current == None && !t'.renewed && t'.rrQuantum > 0
    requires IsCurrent(s, p)
    ensures Inv(UpdatePriority(t', p)) <==> !Hazard(s, p, PcbOf(t, p).state)
  {
    assert t'.nodes == t.nodes;
    if PcbOf(t, p).state.BLOCKED? {
      TurnKeeps(t', p);
    } else {
      PriorityInRange(t, p);
      if Hazard(s, p, PcbOf(t, p).state) {
        TurnMisplaces(t', p, Priority(t, p));
      } else {
        TurnKeeps(t', p);
      }
    }
  }

  // ---------------------------------------------------------------- arrivals and priorities

  /** Exactly when rrAddProcess keeps the invariant: the process must have been born. */
  lemma AddKeepsInvIff(s: Sched, p: Pid)
    requires Inv(s) && !PcbOf(s, p).state.RUNNING? && s.current != Some(p)
    ensures Inv(AddProcess(s, p)) <==> p in s.nodes || !PcbOf(s, p).state.UN_BORN?
  {
    if p !in s.nodes {
      var pcb := PcbOf(s, p);
      assert WithPcb(s, p, pcb) == s;
      var t := CreateNode(s, p);
      if pcb.state.UN_BORN? {
        assert Once(s, None, p);
        assert !Once(t, None, p);
      } else {
        PriorityInRange(s, p);
        TakesInHand(s, p, pcb);
        assert InHand(s, p, pcb) == t;
        ChangePlaces(t, p);
        ChangeFrame(t, p);
      }
    }
  }

  /** The one accepted request that leaves the levels: a negative code is stored as the priority itself. */
  predicate LeavesLevels(s: Sched, p: Pid, priority: int) {
    Reprioritizes(PcbOf(s, p), priority) && priority < 0
  }

  /** Exactly when setProcessPriority keeps the invariant. */
  lemma SetPriorityKeepsInvIff(s: Sched, p: Pid, priority: int, nice: bool)
    requires Inv(s)
    ensures Inv(SetProcessPriority(s, p, priority, nice)) <==> !LeavesLevels(s, p, priority)
  {
    var s' := SetProcessPriority(s, p, priority, nice);
    if Reprioritizes(PcbOf(s, p), priority) {
      OutsideTableUnborn(s, p);
      if priority >= 0 {
        NewLevel(s, p, priority, nice);
      } else {
        assert s'.pcbs[p].priority == priority;
      }
    }
  }

  /** A priority change inside the levels: a queued process moves, the running and the blocked ones stay. */
  lemma NewLevel(s: Sched, p: Pid, priority: int, nice: bool)
    requires Inv(s) && p < |s.pcbs| && Reprioritizes(PcbOf(s, p), priority) && priority >= 0
    ensures Inv(SetProcessPriority(s, p, priority, nice))
  {
    var s' := SetProcessPriority(s, p, priority, nice);
    var was := PcbOf(s, p);
    var pcb := was.(priority := priority, priorityType := if nice then DO_NOT_CHANGE else was.priorityType);
    if p in s.nodes && s.current != Some(p) && !Gone(was.state) {
      TakesInHand(s, p, pcb);
      assert InHand(s, p, pcb) == Unlink(WithPcb(s, p, pcb), p);
      NodeIsQueued(s, p);
      ChangePlaces(InHand(s, p, pcb), p);
      ChangeFrame(InHand(s, p, pcb), p);
    } else {
      NotReadyQueued(s, p);
      LoosePlaced(s.running, p, s.pcbs, s'.pcbs);
      LoosePlaced(s.finished, p, s.pcbs, s'.pcbs);
      SameStates(s, s');
      SamePartition(s, s', None);
    }
  }

  /** A node that is not current is in a queue, so its process is ready, born or blocked. */
  lemma NodeIsQueued(s: Sched, p: Pid)
    requires Inv(s) && p in s.nodes && s.current != Some(p)
    ensures Waiting(PcbOf(s, p).state) || PcbOf(s, p).state.BLOCKED?
  {
    assert Once(s, None, p);
    CountInMember(s.running, p);
    CountInMember(s.finished, p);
    CountInMember(s.blocked, p);
  }

  /** A process without a node, the running one and the blocked ones are in no ready queue. */
  lemma NotReadyQueued(s: Sched, p: Pid)
    requires Inv(s) && (p !in s.nodes || s.current == Some(p) || Gone(PcbOf(s, p).state))
    ensures LooseIn(s.running, p) && LooseIn(s.finished, p)
  {
    assert Once(s, None, p);
    CountInMember(s.running, p);
    CountInMember(s.finished, p);
  }

  // ---------------------------------------------------------------- wake-ups

  lemma PopPartition(s: Sched, s': Sched, p: Pid)
    requires Partition(s, None) && s'.nodes == s.nodes && s'.current == s.current && s'.renewed == s.renewed
    requires forall x :: Linked(s, x) == Linked(s', x) + One(x == p)
    ensures Partition(s', Some(p))
  {
    forall x: Pid ensures Once(s', Some(p), x) {
      assert Once(s, None, x);
    }
  }

  /** The process in hand becomes the running one. */
  lemma HandRuns(s: Sched, p: Pid)
    requires Placed(s) && Partition(s, Some(p)) && s.current == None && s.rrQuantum > 0 && p < |s.pcbs|
    ensures Inv(WithCurrent(SetState(SetNodeQuantum(s, p), p, RUNNING, NO_REASON), Some(p)))
  {
    var t := WithCurrent(SetState(SetNodeQuantum(s, p), p, RUNNING, NO_REASON), Some(p));
    InHandIsLoose(s, p);
    PriorityInRange(s, p);
    PcbOfLoose(s, p, PcbOf(t, p));
    forall x: Pid ensures Once(t, None, x) {
      assert Once(s, Some(p), x);
    }
  }

  /** The keyboard interrupt that breaks the partition: it queues a running process whose node is gone. */
  predicate PreemptsZombie(s: Sched, reason: Reason) {
    Zombie(s) && reason.KEYBOARD? && 0 < |s.blocked| && s.blocked[0] != []
  }

  /** Exactly when rrUnblockWaiters, keyboard preemption included, keeps the invariant. */
  lemma UnblockKeepsInvIff(s: Sched, reason: Reason)
    requires Inv(s)
    ensures Inv(UnblockWaiters(s, reason)) <==> !PreemptsZombie(s, reason)
  {
    var k := ReasonIndex(reason);
    if s.blocked[k] != [] {
      var p := s.blocked[k][0];
      var s1 := s.(blocked := s.blocked[k := s.blocked[k][1..]]);
      BlockedPop(s, k);
      InHandIsLoose(s1, p);
      if Zombie(s) {
        ZombieHasNoNode(s);
      }
      if !reason.KEYBOARD? {
        WakeKeeps(s1, p);
      } else if !Zombie(s) {
        PreemptKeeps(s1, p);
      } else {
        ZombieIsQueued(s, s1, p);
      }
    }
  }

  /** preemptProcess puts a process at the head of a queue that has no node any more. */
  lemma ZombieIsQueued(s: Sched, s1: Sched, p: Pid)
    requires Inv(s) && Zombie(s) && Placed(s1) && s1.current == s.current && s1.nodes == s.nodes && s1.pcbs == s.pcbs
    requires Partition(s1, Some(p))
    ensures !Inv(Preempt(s1, p))
  {
    var c, t := s.current.value, Preempt(s1, p);
    ZombieHasNoNode(s);
    InHandIsLoose(s1, p);
    PriorityInRange(s1, c);
    CountAdd(s1.running, Priority(s1, c), c, c);
    assert c !in t.nodes && Linked(t, c) > 0;
    assert !Once(t, None, c);
  }

  lemma BlockedPop(s: Sched, k: nat)
    requires Inv(s) && k < 4 && s.blocked[k] != []
    ensures var p := s.blocked[k][0];
            var s1 := s.(blocked := s.blocked[k := s.blocked[k][1..]]);
            Placed(s1) && Partition(s1, Some(p)) && PcbOf(s, p).state.BLOCKED? && p < |s.pcbs|
  {
    var p := s.blocked[k][0];
    var s1 := s.(blocked := s.blocked[k := s.blocked[k][1..]]);
    assert p in s.blocked[k];
    OutsideTableUnborn(s, p);
    forall x ensures Linked(s, x) == Linked(s1, x) + One(x == p) {
      CountPop(s.blocked, k, x);
    }
    PopPartition(s, s1, p);
    forall q | q in s1.blocked[k] ensures q in s.blocked[k] {
    }
  }

  /** A process in hand that is made ready goes to the tail of its level. */
  lemma WakeKeeps(s: Sched, p: Pid)
    requires Placed(s) && Partition(s, Some(p)) && CurrentPlaced(s) && s.current != Some(p)
    requires s.rrQuantum > 0 && p < |s.pcbs|
    ensures Inv(ChangeToRespectiveQueue(SetState(s, p, READY, NO_REASON), p))
  {
    var s2 := SetState(s, p, READY, NO_REASON);
    InHandIsLoose(s, p);
    PriorityInRange(s, p);
    PcbOfLoose(s, p, PcbOf(s2, p));
    SamePartition(s, s2, Some(p));
    ChangePlaces(s2, p);
    ChangeFrame(s2, p);
  }

  /** The running process goes back to the head of its level while p is in hand. */
  function Requeued(s: Sched, c: Pid): Sched {
    WithCurrent(SetState(s, c, READY, NO_REASON).(running := AddHead(s.running, Priority(s, c), c)), None)
  }

  lemma RequeueKeeps(s: Sched, c: Pid, p: Pid)
    requires Placed(s) && Partition(s, Some(p)) && IsCurrent(s, c) && c < |s.pcbs|
    ensures Placed(Requeued(s, c)) && Partition(Requeued(s, c), Some(p))
  {
    var t := Requeued(s, c);
    PriorityInRange(s, c);
    assert Once(s, Some(p), c);
    LooseIffNotLinked(s, c);
    PcbOfLoose(s, c, PcbOf(t, c));
    AddHeadPlaced(s, c);
    forall x: Pid ensures Once(t, Some(p), x) {
      CountAdd(s.running, Priority(s, c), c, x);
      assert Once(s, Some(p), x);
    }
  }

  /** preemptProcess: the running process goes to the head of its level, the woken one runs. */
  lemma PreemptKeeps(s: Sched, p: Pid)
    requires Placed(s) && Partition(s, Some(p)) && CurrentPlaced(s) && !Zombie(s) && s.rrQuantum > 0 && p < |s.pcbs|
    ensures Inv(Preempt(s, p))
  {
    InHandIsLoose(s, p);
    var t := if s.current.Some? then Requeued(s, s.current.value) else s;
    if s.current.Some? {
      OutsideTableUnborn(s, s.current.value);
      RequeueKeeps(s, s.current.value, p);
    }
    HandRuns(t, p);
    assert Preempt(s, p) == WithCurrent(SetState(SetNodeQuantum(t, p), p, RUNNING, NO_REASON), Some(p)) by {
      PreemptIsRequeue(s, p);
    }
  }

  lemma PreemptIsRequeue(s: Sched, p: Pid)
    ensures var t := if s.current.Some? then Requeued(s, s.current.value) else s;
            Preempt(s, p) == WithCurrent(SetState(SetNodeQuantum(t, p), p, RUNNING, NO_REASON), Some(p))
  {
  }

  lemma AddHeadPlaced(s: Sched, c: Pid)
    requires Placed(SetState(s, c, READY, NO_REASON)) && 0 <= Priority(s, c) < PRIORITY_LEVELS && c < |s.pcbs|
    ensures Placed(Requeued(s, c))
  {
  }

  // ---------------------------------------------------------------- the tick

  /** The state after handleCurrent when the running process does not go on, with nobody running. */
  function Retired(s: Sched): Sched {
    WithCurrent(HandleCurrent(s).0, None)
  }

  lemma RetireKeepsInv(s: Sched)
    requires Inv(s) && !HandleCurrent(s).1
    ensures Inv(Retired(s))
  {
    var t := Retired(s);
    if s.current.Some? {
      var c := s.current.value;
      assert Once(s, None, c);
      if IsCurrent(s, c) {
        RetireRunning(s, c);
      } else {
        ZombieHasNoNode(s);
        assert t.nodes == s.nodes;
        SamePartition(s, t, None);
      }
    }
  }

  /** The running process whose quantum is used up goes to the finished queue of its aged priority. */
  lemma RetireRunning(s: Sched, c: Pid)
    requires Inv(s) && IsCurrent(s, c) && !HandleCurrent(s).1
    ensures Inv(Retired(s))
  {
    var t := Retired(s);
    var pcb := PcbOf(s, c);
    var aged := AgedPriority(pcb, s.nodes[c].turns + 1);
    assert Once(s, None, c);
    LooseIffNotLinked(s, c);
    PriorityInRange(s, c);
    OutsideTableUnborn(s, c);
    PcbOfLoose(s, c, pcb.(priority := aged, state := READY, reason := NO_REASON));
    assert t.pcbs == WithPcb(s, c, pcb.(priority := aged, state := READY, reason := NO_REASON)).pcbs;
    assert t.finished == AddTail(s.finished, aged, c);
    forall x ensures Linked(t, x) == Linked(s, x) + One(x == c) {
      CountAdd(s.finished, aged, c, x);
    }
    forall x: Pid ensures Once(t, None, x) {
      assert Once(s, None, x);
    }
  }

  lemma SwapKeepsInv(s: Sched)
    requires Inv(s)
    ensures Inv(SwapIfDrained(s))
  {
    var t := SwapIfDrained(s);
    forall x: Pid ensures Once(t, None, x) {
      assert Once(s, None, x);
    }
  }

  /** The pop loop takes the head of the first level and never meets a blocked or dead node. */
  lemma PopTakesHead(s: Sched, k: nat)
    requires Inv(s) && s.current == None && k < |s.running| && s.running[k] != []
    ensures var p := s.running[k][0];
            var s' := s.(running := s.running[k := s.running[k][1..]]);
            PopReady(s, k) == (s', Some(p)) && Placed(s') && Partition(s', Some(p)) && p < |s.pcbs|
  {
    var p := s.running[k][0];
    var s' := s.(running := s.running[k := s.running[k][1..]]);
    assert p in s.running[k];
    OutsideTableUnborn(s, p);
    forall x ensures Linked(s, x) == Linked(s', x) + One(x == p) {
      CountPop(s.running, k, x);
    }
    PopPartition(s, s', p);
    forall q | q in s'.running[k] ensures q in s.running[k] {
    }
  }

  /** getNextReadyNode takes the head of the first level that is not empty. */
  lemma NextReadyTakesHead(s: Sched)
    requires Inv(s) && s.current == None
    ensures var t := SwapIfDrained(s);
            var k := FirstLevel(t.running);
            NextReady(s) == if k == |t.running| then (t, None)
                            else (t.(running := t.running[k := t.running[k][1..]]), Some(t.running[k][0]))
  {
    var t := SwapIfDrained(s);
    var k := FirstLevel(t.running);
    SwapKeepsInv(s);
    if k < |t.running| {
      PopTakesHead(t, k);
    }
  }

  lemma DispatchIgnoresCurrent(s: Sched, p: Pid)
    ensures Dispatch(WithCurrent(s, None), p) == Dispatch(s, p)
  {
  }

  /** A tick that does not go on with the running process, in terms of the state with nobody running. */
  lemma TickPicksFirst(s: Sched)
    requires Inv(s) && !HandleCurrent(s).1
    ensures var t := SwapIfDrained(Retired(s));
            var k := FirstLevel(t.running);
            Tick(s) == if k == |t.running| then t
                       else Dispatch(t.(running := t.running[k := t.running[k][1..]]), t.running[k][0])
  {
    hide HandleCurrent, NextReady, SwapIfDrained, Dispatch, FirstLevel;
    var h := HandleCurrent(s).0;
    RetireKeepsInv(s);
    assert Retired(s) == WithCurrent(h, None);
    TickIgnoresStaleCurrent(h);
    NextReadyTakesHead(Retired(s));
    var (s2, next) := NextReady(h);
    if next.Some? {
      DispatchIgnoresCurrent(s2, next.value);
    }
  }

  /** A timer tick keeps the invariant. */
  lemma TickKeepsInv(s: Sched)
    requires Inv(s)
    ensures Inv(Tick(s)) && !Zombie(Tick(s))
  {
    if HandleCurrent(s).1 {
      SamePartition(s, HandleCurrent(s).0, None);
    } else {
      TickPicksFirst(s);
      RetireKeepsInv(s);
      SwapKeepsInv(Retired(s));
      FirstLevelRuns(SwapIfDrained(Retired(s)));
    }
  }

  lemma FirstLevelRuns(t: Sched)
    requires Inv(t) && t.current == None
    ensures var k := FirstLevel(t.running);
            k < |t.running| ==>
              var d := Dispatch(t.(running := t.running[k := t.running[k][1..]]), t.running[k][0]);
              Inv(d) && !Zombie(d)
  {
    var k := FirstLevel(t.running);
    if k < |t.running| {
      PopTakesHead(t, k);
      HandRuns(PopReady(t, k).0, t.running[k][0]);
    }
  }

  /** getNextReadyNode does not look at `current`. */
  lemma TickIgnoresStaleCurrent(s: Sched)
    requires |s.running| == |s.finished|
    requires forall k, p :: 0 <= k < |s.running| && p in s.running[k] ==> !Gone(PcbOf(s, p).state)
    requires forall k, p :: 0 <= k < |s.finished| && p in s.finished[k] ==> !Gone(PcbOf(s, p).state)
    ensures var (a, x) := NextReady(s);
            var (b, y) := NextReady(WithCurrent(s, None));
            x == y && b == WithCurrent(a, None)
  {
    var t := SwapIfDrained(s);
    var k := FirstLevel(t.running);
    assert SwapIfDrained(WithCurrent(s, None)) == WithCurrent(t, None);
    if k < |t.running| {
      var p := t.running[k][0];
      assert t.running == s.running || t.running == s.finished;
      assert p in s.running[k] || p in s.finished[k];
      assert PcbOf(t, p) == PcbOf(s, p);
      var t' := t.(running := t.running[k := t.running[k][1..]]);
      assert PopReady(t, k) == (t', Some(p));
      assert PopReady(WithCurrent(t, None), k) == (WithCurrent(t', None), Some(p));
    }
  }
}

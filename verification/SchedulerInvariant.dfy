/** The partition invariant: every node is in exactly one place, the right one, after every event. */
module SchedulerInvariant {
  import opened Options
  import opened Scheduler

  // ---------------------------------------------------------------- who is linked where

  function Count(q: seq<Pid>, x: Pid): nat {
    if q == [] then 0 else (if q[0] == x then 1 else 0) + Count(q[1..], x)
  }

  function CountIn(qs: Queues, x: Pid): nat {
    if qs == [] then 0 else Count(qs[0], x) + CountIn(qs[1..], x)
  }

  function Linked(s: Sched, x: Pid): nat {
    CountIn(s.running, x) + CountIn(s.finished, x) + CountIn(s.blocked, x)
  }

  function One(b: bool): nat {
    if b then 1 else 0
  }

  /** A process with a node is linked once, or current, or the one held in hand; one without is nowhere. */
  predicate Once(s: Sched, inHand: Option<Pid>, x: Pid) {
    Linked(s, x) + One(IsCurrent(s, x)) + One(inHand == Some(x)) == One(x in s.nodes)
  }

  ghost predicate Partition(s: Sched, inHand: Option<Pid>) {
    forall x: Pid :: Once(s, inHand, x)
  }

  /** The current process died or was taken over by a mutex or message queue since the last tick. */
  predicate Zombie(s: Sched) {
    s.current.Some? && !IsCurrent(s, s.current.value)
  }

  predicate Waiting(st: PState) {
    st.BORN? || st.READY?
  }

  /** Queue index is priority, and only processes that may run sit in a ready queue. */
  ghost predicate ReadyPlaced(qs: Queues, pcbs: seq<Pcb>) {
    |qs| == PRIORITY_LEVELS &&
    forall k, p :: 0 <= k < |qs| && p in qs[k] ==> Waiting(PcbIn(pcbs, p).state) && PcbIn(pcbs, p).priority == k
  }

  ghost predicate BlockedPlaced(qs: Queues, pcbs: seq<Pcb>) {
    |qs| == 4 &&
    forall k, p :: 0 <= k < |qs| && p in qs[k] ==>
      PcbIn(pcbs, p).state.BLOCKED? && ReasonIndex(PcbIn(pcbs, p).reason) == k && !HandedOver(PcbIn(pcbs, p))
  }

  predicate CurrentPlaced(s: Sched) {
    match s.current
    case None => !s.renewed
    case Some(c) => if IsCurrent(s, c) then PcbOf(s, c).state.RUNNING? else HandedOver(PcbOf(s, c))
  }

  /** The states in which the scheduler keeps no node. */
  predicate HandedOver(pcb: Pcb) {
    pcb.state.DEAD? || (pcb.state.BLOCKED? && (pcb.reason.MUTEX_BLOCK? || pcb.reason.MESSAGE_PASSING?))
  }

  ghost predicate PrioritiesInRange(pcbs: seq<Pcb>) {
    forall p :: 0 <= p < |pcbs| ==> 0 <= pcbs[p].priority < PRIORITY_LEVELS
  }

  ghost predicate Placed(s: Sched) {
    ReadyPlaced(s.running, s.pcbs) && ReadyPlaced(s.finished, s.pcbs) && BlockedPlaced(s.blocked, s.pcbs) &&
    PrioritiesInRange(s.pcbs)
  }

  ghost predicate Inv(s: Sched) {
    Placed(s) && CurrentPlaced(s) && Partition(s, None) && s.rrQuantum > 0
  }

  // ---------------------------------------------------------------- counting in queues

  lemma {:induction false} CountUpdate(qs: Queues, k: nat, q: seq<Pid>, x: Pid)
    requires k < |qs|
    ensures CountIn(qs[k := q], x) + Count(qs[k], x) == CountIn(qs, x) + Count(q, x)
  {
    if k > 0 {
      assert qs[k := q][1..] == qs[1..][k - 1 := q];
      CountUpdate(qs[1..], k - 1, q, x);
    } else {
      assert qs[k := q][1..] == qs[1..];
    }
  }

  lemma {:induction false} CountConcat(a: seq<Pid>, b: seq<Pid>, x: Pid)
    ensures Count(a + b, x) == Count(a, x) + Count(b, x)
  {
    if a == [] {
      assert a + b == b;
    } else {
      assert (a + b)[1..] == a[1..] + b;
      CountConcat(a[1..], b, x);
    }
  }

  lemma {:induction false} CountMember(q: seq<Pid>, x: Pid)
    ensures x in q <==> Count(q, x) > 0
  {
    if q != [] {
      CountMember(q[1..], x);
    }
  }

  lemma {:induction false} CountInMember(qs: Queues, x: Pid)
    ensures CountIn(qs, x) > 0 <==> exists k :: 0 <= k < |qs| && x in qs[k]
  {
    if qs != [] {
      CountMember(qs[0], x);
      CountInMember(qs[1..], x);
      if k :| 0 <= k < |qs| && x in qs[k] {
        assert k > 0 ==> x in qs[1..][k - 1];
      }
      if k :| 0 <= k < |qs[1..]| && x in qs[1..][k] {
        assert x in qs[k + 1];
      }
    }
  }

  lemma CountAdd(qs: Queues, k: int, p: Pid, x: Pid)
    requires 0 <= k < |qs|
    ensures CountIn(AddTail(qs, k, p), x) == CountIn(qs, x) + One(x == p)
    ensures CountIn(AddHead(qs, k, p), x) == CountIn(qs, x) + One(x == p)
  {
    CountUpdate(qs, k, qs[k] + [p], x);
    CountUpdate(qs, k, [p] + qs[k], x);
    CountConcat(qs[k], [p], x);
    CountConcat([p], qs[k], x);
  }

  lemma CountPop(qs: Queues, k: nat, x: Pid)
    requires k < |qs| && qs[k] != []
    ensures CountIn(qs, x) == CountIn(qs[k := qs[k][1..]], x) + One(x == qs[k][0])
  {
    CountUpdate(qs, k, qs[k][1..], x);
  }

  lemma {:induction false} CountWithout(q: seq<Pid>, p: Pid, x: Pid)
    ensures Count(Without(q, p), x) == if x == p then 0 else Count(q, x)
  {
    if q != [] {
      CountConcat(if q[0] == p then [] else [q[0]], Without(q[1..], p), x);
      CountWithout(q[1..], p, x);
    }
  }

  lemma {:induction false} CountWithoutAll(qs: Queues, p: Pid, x: Pid)
    ensures CountIn(WithoutAll(qs, p), x) == if x == p then 0 else CountIn(qs, x)
  {
    if qs != [] {
      CountWithout(qs[0], p, x);
      CountWithoutAll(qs[1..], p, x);
      assert WithoutAll(qs, p)[1..] == WithoutAll(qs[1..], p);
    }
  }

  lemma {:induction false} WithoutAbsent(q: seq<Pid>, p: Pid)
    requires p !in q
    ensures Without(q, p) == q
  {
    if q != [] {
      WithoutAbsent(q[1..], p);
    }
  }

  lemma WithoutMembers(q: seq<Pid>, p: Pid)
    ensures forall x :: x in Without(q, p) <==> x in q && x != p
  {
    forall x ensures x in Without(q, p) <==> x in q && x != p {
      CountWithout(q, p, x);
      CountMember(q, x);
      CountMember(Without(q, p), x);
    }
  }

  // ---------------------------------------------------------------- the steps the events are made of

  /** p is in no queue. */
  ghost predicate Loose(s: Sched, p: Pid) {
    LooseIn(s.running, p) && LooseIn(s.finished, p) && LooseIn(s.blocked, p)
  }

  ghost predicate LooseIn(qs: Queues, p: Pid) {
    forall k :: 0 <= k < |qs| ==> p !in qs[k]
  }

  lemma LooseIffNotLinked(s: Sched, p: Pid)
    ensures Loose(s, p) <==> Linked(s, p) == 0
  {
    CountInMember(s.running, p);
    CountInMember(s.finished, p);
    CountInMember(s.blocked, p);
  }

  lemma WithoutAllPlaced(qs: Queues, p: Pid, pcbs: seq<Pcb>)
    ensures LooseIn(WithoutAll(qs, p), p)
    ensures ReadyPlaced(qs, pcbs) ==> ReadyPlaced(WithoutAll(qs, p), pcbs)
    ensures BlockedPlaced(qs, pcbs) ==> BlockedPlaced(WithoutAll(qs, p), pcbs)
  {
    forall k | 0 <= k < |qs| ensures forall x :: x in WithoutAll(qs, p)[k] <==> x in qs[k] && x != p {
      WithoutMembers(qs[k], p);
    }
  }

  /** Unlinking p leaves every other process where it is, and p in no queue. */
  lemma UnlinkClears(s: Sched, p: Pid)
    requires Placed(s)
    ensures Placed(Unlink(s, p)) && Loose(Unlink(s, p), p)
    ensures forall x :: Linked(Unlink(s, p), x) == if x == p then 0 else Linked(s, x)
  {
    WithoutAllPlaced(s.running, p, s.pcbs);
    WithoutAllPlaced(s.finished, p, s.pcbs);
    WithoutAllPlaced(s.blocked, p, s.pcbs);
    forall x: Pid ensures Linked(Unlink(s, p), x) == if x == p then 0 else Linked(s, x) {
      CountWithoutAll(s.running, p, x);
      CountWithoutAll(s.finished, p, x);
      CountWithoutAll(s.blocked, p, x);
    }
  }

  lemma LoosePlaced(qs: Queues, p: Pid, pcbs: seq<Pcb>, pcbs': seq<Pcb>)
    requires LooseIn(qs, p) && forall x :: x != p ==> PcbIn(pcbs', x) == PcbIn(pcbs, x)
    ensures ReadyPlaced(qs, pcbs) ==> ReadyPlaced(qs, pcbs')
    ensures BlockedPlaced(qs, pcbs) ==> BlockedPlaced(qs, pcbs')
  {
  }

  /** Changing the control block of a process that is in no queue disturbs no queue. */
  lemma PcbOfLoose(s: Sched, p: Pid, pcb: Pcb)
    requires Placed(s) && Loose(s, p) && 0 <= pcb.priority < PRIORITY_LEVELS
    ensures Placed(WithPcb(s, p, pcb)) && Loose(WithPcb(s, p, pcb), p)
  {
    var pcbs' := WithPcb(s, p, pcb).pcbs;
    LoosePlaced(s.running, p, s.pcbs, pcbs');
    LoosePlaced(s.finished, p, s.pcbs, pcbs');
    LoosePlaced(s.blocked, p, s.pcbs, pcbs');
  }

  /** A running process without its node is one the scheduler has given up, so it has no other node either. */
  lemma ZombieHasNoNode(s: Sched)
    requires Inv(s) && Zombie(s)
    ensures s.current.value !in s.nodes
  {
    var c := s.current.value;
    assert Once(s, None, c);
    if c in s.nodes {
      QueuedIsKept(s, c);
    }
  }

  /** No queue holds a process that the scheduler has given up. */
  lemma QueuedIsKept(s: Sched, p: Pid)
    requires Placed(s) && Linked(s, p) > 0
    ensures !HandedOver(PcbOf(s, p))
  {
    CountInMember(s.running, p);
    CountInMember(s.finished, p);
    CountInMember(s.blocked, p);
  }

  /** The process held in hand is in no queue. */
  lemma InHandIsLoose(s: Sched, p: Pid)
    requires Partition(s, Some(p))
    ensures Loose(s, p) && p in s.nodes && !IsCurrent(s, p)
  {
    assert Once(s, Some(p), p);
    LooseIffNotLinked(s, p);
  }

  lemma PriorityInRange(s: Sched, p: Pid)
    requires Placed(s)
    ensures 0 <= Priority(s, p) < PRIORITY_LEVELS
  {
  }

  /** Adding the process in hand to a queue of `qs` accounts for it. */
  lemma AddAccounts(s: Sched, s': Sched, p: Pid)
    requires Partition(s, Some(p)) && s'.nodes == s.nodes && s'.current == s.current && s'.renewed == s.renewed
    requires forall x :: Linked(s', x) == Linked(s, x) + One(x == p)
    ensures Partition(s', None)
  {
    forall x: Pid ensures Once(s', None, x) {
      assert Once(s, Some(p), x);
    }
  }

  /** changeToRespectiveQueue on a ready process in hand. */
  lemma ChangeReady(s: Sched, p: Pid)
    requires Placed(s) && Partition(s, Some(p)) && Waiting(PcbOf(s, p).state)
    ensures Placed(ChangeToRespectiveQueue(s, p)) && Partition(ChangeToRespectiveQueue(s, p), None)
  {
    var s', pcb := ChangeToRespectiveQueue(s, p), PcbOf(s, p);
    InHandIsLoose(s, p);
    PriorityInRange(s, p);
    var s1 := if pcb.state.BORN? then SetState(s, p, READY, NO_REASON) else s;
    PcbOfLoose(s, p, PcbOf(s1, p));
    forall x: Pid ensures Linked(s', x) == Linked(s, x) + One(x == p) {
      CountAdd(s.running, pcb.priority, p, x);
    }
    AddAccounts(s, s', p);
  }

  /** changeToRespectiveQueue on a blocked process in hand that the scheduler keeps. */
  lemma ChangeBlocked(s: Sched, p: Pid)
    requires Placed(s) && Partition(s, Some(p)) && PcbOf(s, p).state.BLOCKED? && !HandedOver(PcbOf(s, p))
    ensures Placed(ChangeToRespectiveQueue(s, p)) && Partition(ChangeToRespectiveQueue(s, p), None)
  {
    var s', pcb := ChangeToRespectiveQueue(s, p), PcbOf(s, p);
    forall x: Pid ensures Linked(s', x) == Linked(s, x) + One(x == p) {
      CountAdd(s.blocked, ReasonIndex(pcb.reason), p, x);
    }
    AddAccounts(s, s', p);
  }

  /** changeToRespectiveQueue on a process in hand that the scheduler gives up. */
  lemma ChangeRemoved(s: Sched, p: Pid)
    requires Placed(s) && Partition(s, Some(p)) && HandedOver(PcbOf(s, p))
    ensures Placed(ChangeToRespectiveQueue(s, p)) && Partition(ChangeToRespectiveQueue(s, p), None)
  {
    var s' := ChangeToRespectiveQueue(s, p);
    InHandIsLoose(s, p);
    forall x: Pid ensures Once(s', None, x) {
      assert Once(s, Some(p), x);
    }
  }

  /** changeToRespectiveQueue puts a process in hand where its state says, or gives it up. */
  lemma ChangePlaces(s: Sched, p: Pid)
    requires Placed(s) && Partition(s, Some(p))
    requires !PcbOf(s, p).state.UN_BORN? && !PcbOf(s, p).state.RUNNING?
    ensures Placed(ChangeToRespectiveQueue(s, p)) && Partition(ChangeToRespectiveQueue(s, p), None)
  {
    if Waiting(PcbOf(s, p).state) {
      ChangeReady(s, p);
    } else if HandedOver(PcbOf(s, p)) {
      ChangeRemoved(s, p);
    } else {
      ChangeBlocked(s, p);
    }
  }

  /** What changeToRespectiveQueue leaves alone. */
  lemma ChangeFrame(s: Sched, p: Pid)
    ensures var s' := ChangeToRespectiveQueue(s, p);
            s'.current == s.current && s'.renewed == s.renewed && s'.rrQuantum == s.rrQuantum &&
            (forall x :: x != p ==> PcbOf(s', x) == PcbOf(s, x) && (x in s'.nodes <==> x in s.nodes)) &&
            (p in s.nodes && !HandedOver(PcbOf(s, p)) ==> p in s'.nodes) &&
            (HandedOver(PcbOf(s, p)) ==> p !in s'.nodes && PcbOf(s', p) == PcbOf(s, p))
  {
  }
}

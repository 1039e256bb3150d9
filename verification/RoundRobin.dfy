/**
 * roundRobin.c on the heap: the linked queues, the vector of nodes, `current` and the process table as
 * fields that the operations update, each operation tied to the state machine of module Scheduler.
 */
module RoundRobin {
  import opened LinkedQueue
  import opened Options
  import opened Scheduler
  import opened SchedulerInvariant
  import opened SchedulerEvents
  import SchedulerRuns

  ghost function Contents(qs: seq<RRQueue>): (c: Queues)
    reads qs`line
    ensures |c| == |qs| && forall k :: 0 <= k < |qs| ==> c[k] == qs[k].Pids()
  {
    if qs == [] then [] else [qs[0].Pids()] + Contents(qs[1..])
  }

  ghost function NodesIn(vector: seq<RRNode?>): map<Pid, Node>
    reads vector`quantum, vector`turns
  {
    map p: Pid | p < |vector| && vector[p] != null :: Node(vector[p].quantum, vector[p].turns)
  }

  /** No record stands twice in a vector of queues. */
  ghost predicate Single(qs: seq<RRQueue>) {
    forall i, j :: 0 <= i < j < |qs| ==> qs[i] != qs[j]
  }

  ghost predicate Within(qs: seq<RRQueue>, s: set<RRQueue>) {
    forall q :: q in qs ==> q in s
  }

  ghost predicate Apart(a: seq<RRQueue>, b: seq<RRQueue>) {
    forall q :: q in a ==> q !in b
  }

  /** A queue record after resetQueue. */
  ghost predicate Reset(q: RRQueue)
    reads q`line, {q.head, q.tail}`home, {q.head, q.tail}`next, {q.head, q.tail}`prev
  {
    q.line == [q.head, q.tail] && q.Valid()
  }

  /** resetQueue on a vector of queue records; `ends` are their sentinels. */
  method ResetQueues(n: nat) returns (qs: seq<RRQueue>, ghost ends: set<RRNode>)
    ensures |qs| == n && Single(qs) && fresh(ends) && forall q :: q in qs ==> fresh(q)
    ensures forall q :: q in qs ==> q.head in ends && q.tail in ends && Reset(q)
  {
    qs, ends := [], {};
    while |qs| < n
      invariant |qs| <= n && Single(qs) && fresh(ends) && forall q :: q in qs ==> fresh(q)
      invariant forall q :: q in qs ==> q.head in ends && q.tail in ends && Reset(q)
    {
      var q := new RRQueue();
      qs, ends := qs + [q], ends + {q.head, q.tail};
    }
  }

  /** The two structures and the blocked queues are fourteen different records. */
  ghost predicate Different(running: seq<RRQueue>, finished: seq<RRQueue>, blocked: seq<RRQueue>, all: set<RRQueue>) {
    |running| == PRIORITY_LEVELS && |finished| == PRIORITY_LEVELS && |blocked| == 4 &&
    Single(running) && Single(finished) && Single(blocked) &&
    Apart(running, finished) && Apart(running, blocked) && Apart(finished, blocked) &&
    Within(running, all) && Within(finished, all) && Within(blocked, all)
  }

  /** resetAllQueues */
  method ResetAllQueues()
    returns (running: seq<RRQueue>, finished: seq<RRQueue>, blocked: seq<RRQueue>,
             ghost all: set<RRQueue>, ghost ends: set<RRNode>)
    ensures Different(running, finished, blocked, all) && fresh(all) && fresh(ends)
    ensures forall q :: q in all ==> q.head in ends && q.tail in ends && Reset(q)
  {
    ghost var ends0, ends1, ends2;
    running, ends0 := ResetQueues(PRIORITY_LEVELS);
    finished, ends1 := ResetQueues(PRIORITY_LEVELS);
    blocked, ends2 := ResetQueues(4);
    hide Reset;
    all, ends := (set q | q in running + finished + blocked), ends0 + ends1 + ends2;
  }

  predicate SamePriorities(a: seq<Pcb>, b: seq<Pcb>) {
    |a| == |b| && forall p :: 0 <= p < |a| ==> a[p].priority == b[p].priority
  }

  class Kernel {
    var runningQueues: seq<RRQueue>
    var finishedQueues: seq<RRQueue>
    const blockedArr: seq<RRQueue>
    var current: RRNode?
    var process: seq<RRNode?>
    var pcbs: seq<Pcb>
    var rrQuantum: int

    // every queue record, every node ever made with the sentinels, and Sched's field of the same name
    ghost const queues: set<RRQueue>
    ghost var nodes: set<RRNode>
    ghost var renewed: bool

    ghost function Model(): Sched
      reads this, runningQueues`line, finishedQueues`line, blockedArr`line, process`quantum, process`turns
    {
      Sched(Contents(runningQueues), Contents(finishedQueues), Contents(blockedArr),
            if current == null then None else Some(current.pid), renewed, NodesIn(process), pcbs, rrQuantum)
    }

    ghost predicate Layout()
      reads `runningQueues, `finishedQueues
    {
      Different(runningQueues, finishedQueues, blockedArr, queues)
    }

    /** Every queue is well linked; as a record is at home in one queue, no two share a node. */
    ghost predicate Queued()
      reads `nodes, queues`line, nodes`home, nodes`next, nodes`prev
    {
      forall q :: q in queues ==> (forall n :: n in q.line ==> n in nodes) && q.Valid()
    }

    /** What is queued is in the vector of nodes. */
    ghost predicate Known()
      reads `process, `nodes, queues`line
    {
      forall q, n :: q in queues && n in nodes && q.Holds(n) ==> n.pid < |process| && process[n.pid] == n
    }

    ghost predicate Indexed()
      reads `process, `nodes
    {
      forall p :: 0 <= p < |process| && process[p] != null ==> process[p] in nodes && process[p].pid == p
    }

    /** A node of the vector is in the queue it is at home in, or has no links; not so the node in hand. */
    ghost predicate Tracked(hand: RRNode?)
      reads `process, `nodes, queues`line, nodes`home, nodes`next, nodes`prev
    {
      forall p :: 0 <= p < |process| && process[p] != null ==>
        var n := process[p];
        n in nodes &&
        if n.home != null then n.home in queues && n.home.Holds(n) else n == hand || (n.next == null && n.prev == null)
    }

    ghost predicate CurrentKnown()
      reads `current, `process, `nodes, `renewed
    {
      if current == null then !renewed else
        current in nodes && current.pid < |process| &&
        (process[current.pid] != null ==> (renewed <==> process[current.pid] != current))
    }

    /** The running process is in no queue. */
    ghost predicate Free()
      reads `current, `nodes, nodes`home
    {
      current != null ==> current in nodes && current.home == null
    }

    /** What the links and the vector of nodes say about each other. */
    ghost predicate Threaded(hand: RRNode?)
      reads `nodes, `process, queues`line, nodes`home, nodes`next, nodes`prev
    {
      Queued() && Known() && Tracked(hand)
    }

    /** Everything but the running process; between two steps of an operation a node may be in hand. */
    ghost predicate Shape(hand: RRNode?)
      reads `runningQueues, `finishedQueues, `nodes, `process, `current, `renewed
      reads queues`line, nodes`home, nodes`next, nodes`prev
    {
      Layout() && Threaded(hand) && Indexed() && CurrentKnown()
    }

    ghost predicate Valid()
      reads this, queues`line, nodes`home, nodes`next, nodes`prev
    {
      Shape(null) && Free() && |process| == |pcbs| && PrioritiesInRange(pcbs)
    }

    lemma ResetIsValid()
      requires Layout() && current == null && !renewed && |process| == |pcbs| && PrioritiesInRange(pcbs)
      requires forall q :: q in queues ==> q.head in nodes && q.tail in nodes && Reset(q)
      requires forall p :: 0 <= p < |process| ==> process[p] == null
      ensures Valid()
    {
      hide Layout;
      assert forall q, n :: q in queues && n in nodes ==> !q.Holds(n);
    }

    lemma ResetIsIdle()
      requires Layout() && current == null && !renewed && rrQuantum == 4
      requires forall q :: q in queues ==> Reset(q)
      requires forall p :: 0 <= p < |process| ==> process[p] == null
      ensures Model() == SchedulerRuns.Idle(pcbs)
    {
      assert forall q :: q in queues ==> q.Pids() == [];
      assert NodesIn(process) == map[];
    }

    /** The static storage, with every queue reset. */
    constructor (pcbs: seq<Pcb>)
      requires PrioritiesInRange(pcbs)
      ensures Valid() && fresh(queues) && fresh(nodes) && Model() == SchedulerRuns.Idle(pcbs)
    {
      hide Different, Reset, Model, Valid;
      var running, finished, blocked;
      ghost var all, ends;
      running, finished, blocked, all, ends := ResetAllQueues();
      runningQueues, finishedQueues, blockedArr, queues, nodes := running, finished, blocked, all, ends;
      process := seq(|pcbs|, _ => null);
      current, renewed := null, false;
      this.pcbs := pcbs;
      rrQuantum := 4;
      new;
      ResetIsValid();
      ResetIsIdle();
    }

    /** rrInit: the first process is queued under its priority. */
    method RrInit(first: Pid)
      requires Valid() && first < |pcbs| && Model() == SchedulerRuns.Idle(pcbs)
      modifies `process, `nodes, `renewed, queues`line, nodes`next, nodes`prev, nodes`home
      ensures Valid() && Model() == SchedulerRuns.Started(pcbs, first)
    {
      hide Model, Shape;
      NodeFacts(first, null);
      CreateNewNode(first);
      AddToRunning(pcbs[first].priority, process[first]);
      assert [] + [first] == [first];
    }

    // ---------------------------------------------------------------- linking

    /** Every record is at home in the one queue it is in. */
    lemma HomeIsQueue()
      requires Queued()
      ensures forall q, n :: q in queues && n in q.line ==> n.home == q
    {
    }

    lemma OthersApart(q: RRQueue, node: RRNode?)
      requires Queued() && q in queues && (node == null || node.home == null || node.home == q)
      ensures forall x, n :: x in queues && x != q && n in x.line ==> n !in q.line && n != node && n.home == x
      ensures forall n :: n in q.line ==> n.home == q
      ensures node != null && node.home == null ==> node != q.head && node != q.tail
    {
    }

    // The queue methods, seen from all fourteen queues: the others keep their line and their links.

    method LinkTail(q: RRQueue, node: RRNode)
      requires Queued() && q in queues && node in nodes && node.home == null
      modifies queues`line, nodes`next, nodes`prev, nodes`home
      ensures Queued() && node.home == q
      ensures forall n :: n in nodes ==> (q.Holds(n) <==> old(q.Holds(n)) || n == node)
      ensures forall x :: x in queues && x != q ==> x.line == old(x.line)
      ensures q.Pids() == old(q.Pids()) + [node.pid]
      ensures forall n :: n in nodes && n != node ==> n.home == old(n.home)
      ensures forall n :: n in nodes && n != node && n.home == null ==> n.next == old(n.next) && n.prev == old(n.prev)
    {
      hide RRQueue.Valid, RRQueue.Pids, Extended;
      OthersApart(q, node);
      q.AddNodeTail(node);
      forall x | x in queues && x != q ensures x.Valid() && x.line == old(x.line) {
        assert old(x.Valid());
        forall n | n in x.line ensures n.home == old(n.home) && n.next == old(n.next) && n.prev == old(n.prev) {
          assert n in old(x.line);
        }
      }
    }

    method LinkHead(q: RRQueue, node: RRNode)
      requires Queued() && q in queues && node in nodes && node.home == null
      modifies queues`line, nodes`next, nodes`prev, nodes`home
      ensures Queued() && node.home == q
      ensures forall n :: n in nodes ==> (q.Holds(n) <==> old(q.Holds(n)) || n == node)
      ensures forall x :: x in queues && x != q ==> x.line == old(x.line)
      ensures q.Pids() == [node.pid] + old(q.Pids())
      ensures forall n :: n in nodes && n != node ==> n.home == old(n.home)
      ensures forall n :: n in nodes && n != node && n.home == null ==> n.next == old(n.next) && n.prev == old(n.prev)
    {
      hide RRQueue.Valid, RRQueue.Pids, Extended;
      OthersApart(q, node);
      q.AddNodeHead(node);
      forall x | x in queues && x != q ensures x.Valid() && x.line == old(x.line) {
        assert old(x.Valid());
        forall n | n in x.line ensures n.home == old(n.home) && n.next == old(n.next) && n.prev == old(n.prev) {
          assert n in old(x.line);
        }
      }
    }

    method PopNode(q: RRQueue) returns (node: RRNode?)
      requires Queued() && q in queues
      modifies queues`line, nodes`next, nodes`prev, nodes`home
      ensures Queued()
      ensures node == null ==> old(q.Pids()) == [] && q.line == old(q.line)
      ensures node != null ==>
                node in nodes && old(q.Holds(node) && node.home == q) && node.home == null &&
                node.next == null && node.prev == null && old(q.Pids()) == [node.pid] + q.Pids()
      ensures forall n :: n in nodes ==> (q.Holds(n) <==> old(q.Holds(n)) && n != node)
      ensures forall x :: x in queues && x != q ==> x.line == old(x.line)
      ensures forall n :: n in nodes && n != node ==> n.home == old(n.home)
      ensures forall n :: n in nodes && n.home == null && n != node ==> n.next == old(n.next) && n.prev == old(n.prev)
    {
      assert |q.line| == 2 ==> q.Pids() == [];
      hide RRQueue.Valid, RRQueue.Pids, Removed;
      OthersApart(q, null);
      node := q.Pop();
      forall x | x in queues && x != q ensures x.Valid() && x.line == old(x.line) {
        assert old(x.Valid());
        forall n | n in x.line ensures n.home == old(n.home) && n.next == old(n.next) && n.prev == old(n.prev) {
          assert n in old(x.line);
        }
      }
    }

    /** normalQueueRemoveNode on a node that is linked. */
    method UnlinkNode(node: RRNode) returns (ghost k: nat)
      requires Queued() && node in nodes && node.home != null && node.home in queues && node.home.Holds(node)
      modifies queues`line, nodes`next, nodes`prev, nodes`home
      ensures Queued() && node.home == null
      ensures var q := old(node.home);
              0 < k < |old(q.line)| - 1 && old(q.line)[k] == node && q.line == Removed(old(q.line), k) &&
              (forall n :: n in nodes ==> (q.Holds(n) <==> old(q.Holds(n)) && n != node)) &&
              (forall x :: x in queues && x != q ==> x.line == old(x.line))
      ensures forall n :: n in nodes && n != node ==> n.home == old(n.home)
      ensures forall n :: n in nodes && n.home == null && n != node ==> n.next == old(n.next) && n.prev == old(n.prev)
    {
      ghost var q := node.home;
      hide RRQueue.Valid, Removed;
      OthersApart(q, node);
      k := RRQueue.RemoveNode(node);
      forall x | x in queues && x != q ensures x.Valid() && x.line == old(x.line) {
        assert old(x.Valid());
        forall n | n in x.line ensures n.home == old(n.home) && n.next == old(n.next) && n.prev == old(n.prev) {
          assert n in old(x.line);
        }
      }
    }

    // ---------------------------------------------------------------- moving nodes

    /** A node in hand goes to the end of a queue. */
    method Append(q: RRQueue, node: RRNode)
      requires Shape(node) && q in queues && node in nodes && node.home == null
      requires node.pid < |process| && process[node.pid] == node
      modifies queues`line, nodes`next, nodes`prev, nodes`home
      ensures Shape(null) && node.home == q
      ensures forall x :: x in queues && x != q ==> x.line == old(x.line)
      ensures q.Pids() == old(q.Pids()) + [node.pid]
      ensures forall n :: n in nodes && n != node ==> n.home == old(n.home)
    {
      hide Layout, Indexed, CurrentKnown, Queued, RRQueue.Holds;
      LinkTail(q, node);
      forall x, n | x in queues && n in nodes && x.Holds(n) ensures n.pid < |process| && process[n.pid] == n {
        assert old(x.Holds(n)) || n == node;
      }
      forall p | 0 <= p < |process| && process[p] != null && process[p] != node
        ensures process[p].home != null ==> process[p].home.Holds(process[p])
      {
        assert old(process[p].home != null ==> process[p].home.Holds(process[p]));
      }
    }

    /** A running process goes to the front of a queue; when its node was freed the queue then holds a freed node. */
    method Prepend(q: RRQueue, node: RRNode)
      requires Shape(null) && q in queues && node in nodes && node.home == null && node.pid < |process|
      modifies queues`line, nodes`next, nodes`prev, nodes`home
      ensures Threaded(null) <==> process[node.pid] == node
      ensures node.home == q
      ensures forall x :: x in queues && x != q ==> x.line == old(x.line)
      ensures q.Pids() == [node.pid] + old(q.Pids())
      ensures forall n :: n in nodes && n != node ==> n.home == old(n.home)
    {
      hide Layout, Indexed, CurrentKnown, Queued, RRQueue.Holds;
      LinkHead(q, node);
      assert q.Holds(node);
      forall x, n | x in queues && n in nodes && n != node && x.Holds(n)
        ensures n.pid < |process| && process[n.pid] == n
      {
        assert old(x.Holds(n));
      }
      forall p | 0 <= p < |process| && process[p] != null && process[p] != node
        ensures process[p].home != null ==> process[p].home.Holds(process[p])
      {
        assert old(process[p].home != null ==> process[p].home.Holds(process[p]));
      }
    }

    /** normalQueuePop on a queue of the scheduler. */
    method Take(q: RRQueue) returns (node: RRNode?)
      requires Shape(null) && q in queues
      modifies queues`line, nodes`next, nodes`prev, nodes`home
      ensures Shape(null)
      ensures node == null ==> old(q.Pids()) == [] && q.line == old(q.line)
      ensures node != null ==>
                node in nodes && node.home == null && node.pid < |process| && process[node.pid] == node &&
                old(node.home) == q && old(q.Pids()) == [node.pid] + q.Pids()
      ensures forall x :: x in queues && x != q ==> x.line == old(x.line)
      ensures forall n :: n in nodes && n != node ==> n.home == old(n.home)
    {
      hide Layout, Indexed, CurrentKnown, Queued, RRQueue.Holds;
      node := PopNode(q);
      forall x, n | x in queues && n in nodes && x.Holds(n) ensures n.pid < |process| && process[n.pid] == n {
        assert old(x.Holds(n));
      }
      forall p | 0 <= p < |process| && process[p] != null && process[p] != node
        ensures process[p].home != null ==> process[p].home.Holds(process[p])
      {
        assert old(process[p].home != null ==> process[p].home.Holds(process[p]));
      }
    }

    /** A queued node has two links, and its pid is in no other queue. */
    lemma LinkedHere(node: RRNode)
      requires Threaded(null) && node.pid < |process| && process[node.pid] == node
      ensures node.home != null ==> node.prev != null && node.next != null
      ensures node.home != null ==>
                Distinct(node.home.line) &&
                forall i :: 0 < i < |node.home.line| - 1 && node.home.line[i] != node ==>
                  node.home.line[i].pid != node.pid
      ensures forall x :: x in queues && x != node.home ==> Without(x.Pids(), node.pid) == x.Pids()
    {
      if node.home != null {
        var q := node.home;
        var k :| 0 <= k < |q.line| && q.line[k] == node;
        q.Neighbours(k - 1);
        q.Neighbours(k);
      }
      forall x | x in queues && x != node.home ensures Without(x.Pids(), node.pid) == x.Pids() {
        forall i | 0 <= i < |x.Pids()| ensures x.Pids()[i] != node.pid {
          var n := x.line[i + 1];
          assert n in x.line && x.Holds(n);
        }
        WithoutAbsent(x.Pids(), node.pid);
      }
    }

    lemma PidsWithout(q: RRQueue, was: seq<RRNode>, k: nat)
      requires 0 < k < |was| - 1 && q.line == Removed(was, k) && Distinct(was)
      requires forall i :: 0 < i < |was| - 1 && was[i] != was[k] ==> was[i].pid != was[k].pid
      ensures q.Pids() == Without(PidsOf(Inner(was)), was[k].pid)
    {
      RemovalIsWithout(was, k);
    }

    /** normalQueueRemoveNode, which does nothing here to a node that is not linked. */
    method Detach(node: RRNode)
      requires Shape(null) && node.pid < |process| && process[node.pid] == node
      modifies queues`line, nodes`next, nodes`prev, nodes`home
      ensures Shape(node) && node.home == null
      ensures forall x :: x in queues && x != old(node.home) ==> x.line == old(x.line)
      ensures old(node.home) != null ==> old(node.home).Pids() == Without(old(node.home.Pids()), node.pid)
      ensures forall n :: n in nodes && n != node ==> n.home == old(n.home)
    {
      hide Layout, Indexed, CurrentKnown, Queued, RRQueue.Holds, Without, Removed, PidsOf, Inner;
      LinkedHere(node);
      ghost var q := node.home;
      if node.prev != null && node.next != null {
        ghost var k := UnlinkNode(node);
        PidsWithout(q, old(q.line), k);
        forall x, n | x in queues && n in nodes && x.Holds(n) ensures n.pid < |process| && process[n.pid] == n {
          assert old(x.Holds(n));
        }
        forall p | 0 <= p < |process| && process[p] != null && process[p] != node
          ensures process[p].home != null ==> process[p].home.Holds(process[p])
        {
          assert old(process[p].home != null ==> process[p].home.Holds(process[p]));
        }
      }
    }

    method NormalQueueRemoveNode(node: RRNode)
      requires Shape(null) && node.pid < |process| && process[node.pid] == node
      modifies queues`line, nodes`next, nodes`prev, nodes`home
      ensures Shape(node) && node.home == null && Model() == Unlink(old(Model()), node.pid)
      ensures old(Free()) && current != node ==> Free()
    {
      hide Threaded, Indexed, CurrentKnown, RRQueue.Pids, Without, Contents, NodesIn;
      LinkedHere(node);
      Detach(node);
      forall x | x in queues ensures x.Pids() == Without(old(x.Pids()), node.pid) {
      }
      assert Contents(runningQueues) == WithoutAll(old(Contents(runningQueues)), node.pid);
      assert Contents(finishedQueues) == WithoutAll(old(Contents(finishedQueues)), node.pid);
      assert Contents(blockedArr) == WithoutAll(old(Contents(blockedArr)), node.pid);
    }

    // ---------------------------------------------------------------- the table and the vector of nodes

    method DirectSetProcessState(p: Pid, st: PState, reason: Reason)
      modifies `pcbs
      ensures Model() == SetState(old(Model()), p, st, reason) && SamePriorities(old(pcbs), pcbs)
      ensures p < |pcbs| ==> pcbs == old(pcbs)[p := old(pcbs)[p].(state := st, reason := reason)]
    {
      if p < |pcbs| {
        pcbs := pcbs[p := pcbs[p].(state := st, reason := reason)];
      }
    }

    /** A new node enters the vector. */
    method Enlist(node: RRNode)
      requires Shape(null) && node !in nodes && node.home == null && node.pid < |process| && process[node.pid] == null
      modifies `process, `nodes, `renewed
      ensures Shape(node) && process == old(process)[node.pid := node] && nodes == old(nodes) + {node}
      ensures renewed == (old(renewed) || (current != null && current.pid == node.pid))
    {
      process := process[node.pid := node];
      nodes := nodes + {node};
      renewed := renewed || (current != null && current.pid == node.pid);
    }

    /** createNewNode for a process that has no node yet. */
    method CreateNewNode(p: Pid)
      requires Shape(null) && p < |pcbs| && p < |process| && process[p] == null
      modifies `process, `nodes, `renewed
      ensures |process| == |old(process)| && process[p] != null && fresh(process[p])
      ensures process == old(process)[p := process[p]]
      ensures nodes == old(nodes) + {process[p]} && process[p].pid == p && process[p].home == null
      ensures Shape(process[p]) && Model() == CreateNode(old(Model()), p)
    {
      hide Queued, Known, Indexed, Tracked, CurrentKnown, Layout, Contents;
      var node := new RRNode(p, rrQuantum + (MIN_PRIORITY - pcbs[p].priority));
      Enlist(node);
      assert Contents(runningQueues) == old(Contents(runningQueues));
      assert Contents(finishedQueues) == old(Contents(finishedQueues));
      assert Contents(blockedArr) == old(Contents(blockedArr));
      assert NodesIn(process) == old(NodesIn(process))[p := Node(node.quantum, node.turns)];
      hide NodesIn;
    }

    /** A node leaves the vector. */
    method Strike(node: RRNode)
      requires Shape(node) && node in nodes && node.home == null && node.pid < |process|
      requires process[node.pid] == node || process[node.pid] == null
      modifies `process
      ensures Shape(null) && process == old(process)[node.pid := null]
    {
      hide Layout, Queued;
      HomeIsQueue();
      process := process[node.pid := null];
    }

    method RemoveNode(node: RRNode)
      requires Shape(node) && node in nodes && node.home == null && node.pid < |process|
      requires process[node.pid] == node || process[node.pid] == null
      modifies `process
      ensures Shape(null) && process == old(process)[node.pid := null]
      ensures Model() == Scheduler.RemoveNode(old(Model()), node.pid)
    {
      hide Shape, Contents;
      Strike(node);
      assert NodesIn(process) == old(NodesIn(process)) - {node.pid};
    }

    method SetNodeQuantum(node: RRNode)
      requires node.pid < |pcbs| && node.pid < |process| && process[node.pid] == node && Indexed()
      modifies node`quantum
      ensures Model() == Scheduler.SetNodeQuantum(old(Model()), node.pid)
    {
      hide Contents;
      node.quantum := rrQuantum + (MIN_PRIORITY - pcbs[node.pid].priority);
      assert old(NodesIn(process)[node.pid]) == Node(old(node.quantum), node.turns);
      assert NodesIn(process) == old(NodesIn(process))[node.pid := Node(node.quantum, node.turns)];
      hide NodesIn;
    }

    method ReduceProcessPriority(p: Pid)
      requires p < |pcbs|
      modifies `pcbs
      ensures pcbs == if old(pcbs[p].priority) < MIN_PRIORITY
                      then old(pcbs)[p := old(pcbs[p]).(priority := old(pcbs[p].priority) + 1)] else old(pcbs)
    {
      if pcbs[p].priority < MIN_PRIORITY {
        pcbs := pcbs[p := pcbs[p].(priority := pcbs[p].priority + 1)];
      }
    }

    method CountTurn(node: RRNode)
      requires node.pid < |process| && process[node.pid] == node && Indexed()
      modifies node`turns
      ensures node.turns == NodeOf(old(Model()), node.pid).turns + 1
      ensures Model() == WithNode(old(Model()), node.pid, NodeOf(old(Model()), node.pid).(turns := node.turns))
    {
      node.turns := node.turns + 1;
      assert old(NodesIn(process)[node.pid]) == Node(node.quantum, old(node.turns));
      assert NodesIn(process) == old(NodesIn(process))[node.pid := Node(node.quantum, node.turns)];
    }

    method UpdatePriority(node: RRNode)
      requires node.pid < |pcbs| && node.pid < |process| && process[node.pid] == node && Indexed()
      modifies node`turns, `pcbs
      ensures Model() == Scheduler.UpdatePriority(old(Model()), node.pid) && |pcbs| == |old(pcbs)|
      ensures PrioritiesInRange(old(pcbs)) ==> PrioritiesInRange(pcbs)
    {
      hide Indexed, NodesIn, Contents;
      CountTurn(node);
      if pcbs[node.pid].priorityType == NORMAL {
        if node.turns % MAX_TURNS_PER_PRIORITY == 0 {
          ReduceProcessPriority(node.pid);
        }
      }
      ghost var pcb := old(pcbs)[node.pid];
      assert pcbs == old(pcbs)[node.pid := pcb.(priority := AgedPriority(pcb, node.turns))];
    }

    // ---------------------------------------------------------------- changeToRespectiveQueue

    /** Off the levels the code writes outside the array; here the node then stays in hand. */
    method AddToRunning(k: int, node: RRNode)
      requires Shape(node) && node in nodes && node.home == null
      requires node.pid < |process| && process[node.pid] == node
      modifies queues`line, nodes`next, nodes`prev, nodes`home
      ensures if 0 <= k < PRIORITY_LEVELS then Shape(null) else Shape(node)
      ensures Model() == old(Model()).(running := AddTail(old(Model()).running, k, node.pid))
      ensures old(Free()) && current != node ==> Free()
    {
      hide Queued, Known, Indexed, Tracked, CurrentKnown, RRQueue.Pids, Contents, NodesIn;
      if 0 <= k < PRIORITY_LEVELS {
        Append(runningQueues[k], node);
        assert Contents(runningQueues) == AddTail(old(Contents(runningQueues)), k, node.pid);
        assert Contents(finishedQueues) == old(Contents(finishedQueues));
        assert Contents(blockedArr) == old(Contents(blockedArr));
      }
    }

    method AddToFinished(k: nat, node: RRNode)
      requires Shape(node) && k < PRIORITY_LEVELS && node in nodes && node.home == null
      requires node.pid < |process| && process[node.pid] == node
      modifies queues`line, nodes`next, nodes`prev, nodes`home
      ensures Shape(null) && Model() == old(Model()).(finished := AddTail(old(Model()).finished, k, node.pid))
      ensures old(Free()) && current != node ==> Free()
    {
      hide Queued, Known, Indexed, Tracked, CurrentKnown, RRQueue.Pids, Contents, NodesIn;
      Append(finishedQueues[k], node);
      assert Contents(finishedQueues) == AddTail(old(Contents(finishedQueues)), k, node.pid);
      assert Contents(runningQueues) == old(Contents(runningQueues));
      assert Contents(blockedArr) == old(Contents(blockedArr));
    }

    method AddToBlocked(reason: Reason, node: RRNode)
      requires Shape(node) && node in nodes && node.home == null
      requires node.pid < |process| && process[node.pid] == node
      modifies queues`line, nodes`next, nodes`prev, nodes`home
      ensures Shape(null)
      ensures Model() == old(Model()).(blocked := AddTail(old(Model()).blocked, ReasonIndex(reason), node.pid))
      ensures old(Free()) && current != node ==> Free()
    {
      hide Queued, Known, Indexed, Tracked, CurrentKnown, RRQueue.Pids, Contents, NodesIn;
      var k := ReasonIndex(reason);
      assert blockedArr[k] in blockedArr;
      assert forall i :: 0 <= i < 4 && i != k ==> blockedArr[i] != blockedArr[k];
      Append(blockedArr[k], node);
      assert Contents(blockedArr) == AddTail(old(Contents(blockedArr)), k, node.pid);
      assert Contents(runningQueues) == old(Contents(runningQueues));
      assert Contents(finishedQueues) == old(Contents(finishedQueues));
    }

    /** The states changeToRespectiveQueue finds a place for. */
    static predicate Settles(pcb: Pcb) {
      !pcb.state.UN_BORN? && !pcb.state.RUNNING? && (Waiting(pcb.state) ==> 0 <= pcb.priority < PRIORITY_LEVELS)
    }

    /** The queue of the reason, or none when the process is left to a mutex or a message queue. */
    method FuncionAuxiliar(node: RRNode)
      requires Shape(node) && node in nodes && node.home == null && node.pid < |pcbs| && node.pid < |process|
      requires pcbs[node.pid].state.BLOCKED?
      requires process[node.pid] == node || (process[node.pid] == null && HandedOver(pcbs[node.pid]))
      modifies `process, queues`line, nodes`next, nodes`prev, nodes`home
      ensures Shape(null) && Model() == Scheduler.ChangeToRespectiveQueue(old(Model()), node.pid)
      ensures process == if HandedOver(pcbs[node.pid]) then old(process)[node.pid := null] else old(process)
      ensures old(Free()) && (current != node || HandedOver(pcbs[node.pid])) ==> Free()
    {
      hide Shape, NodesIn, Contents;
      if pcbs[node.pid].reason == MUTEX_BLOCK || pcbs[node.pid].reason == MESSAGE_PASSING {
        RemoveNode(node);
      } else {
        AddToBlocked(pcbs[node.pid].reason, node);
      }
    }

    method ChangeToRespectiveQueue(node: RRNode) returns (ok: bool)
      requires Shape(node) && node in nodes && node.home == null && node.pid < |pcbs| && node.pid < |process|
      requires process[node.pid] == node || (process[node.pid] == null && HandedOver(pcbs[node.pid]))
      modifies `process, `pcbs, queues`line, nodes`next, nodes`prev, nodes`home
      ensures ok <==> !old(pcbs)[node.pid].state.RUNNING?
      ensures SamePriorities(old(pcbs), pcbs)
      ensures if Settles(old(pcbs)[node.pid]) then Shape(null) else Shape(node)
      ensures Model() == Scheduler.ChangeToRespectiveQueue(old(Model()), node.pid)
      ensures process == if HandedOver(old(pcbs)[node.pid]) then old(process)[node.pid := null] else old(process)
      ensures old(Free()) && (current != node || HandedOver(old(pcbs)[node.pid])) ==> Free()
    {
      hide Shape, NodesIn, Contents;
      var pcb := pcbs[node.pid];
      ok := pcb.state != RUNNING;
      match pcb.state {
        case BORN =>
          DirectSetProcessState(node.pid, READY, NO_REASON);
          AddToRunning(pcb.priority, node);
        case READY =>
          AddToRunning(pcb.priority, node);
        case RUNNING =>
        case BLOCKED =>
          FuncionAuxiliar(node);
        case DEAD =>
          RemoveNode(node);
        case UN_BORN =>
      }
    }

    // ---------------------------------------------------------------- events from outside

    method RrAddProcess(p: Pid) returns (ok: bool)
      requires Valid() && p < |pcbs|
      modifies this, queues`line, nodes`next, nodes`prev, nodes`home
      ensures Model() == AddProcess(old(Model()), p)
      ensures ok <==> p !in old(Model()).nodes && !old(pcbs)[p].state.RUNNING?
      ensures p in old(Model()).nodes || Settles(old(pcbs)[p]) ==> Valid()
    {
      hide Shape, Contents, Scheduler.ChangeToRespectiveQueue;
      if process[p] != null {
        return false;
      }
      CreateNewNode(p);
      ok := ChangeToRespectiveQueue(process[p]);
    }

    lemma TableIsModelled()
      ensures Model().pcbs == pcbs
    {
    }

    lemma ModelSizes(hand: RRNode?)
      requires Shape(hand)
      ensures |Model().running| == PRIORITY_LEVELS && |Model().finished| == PRIORITY_LEVELS && |Model().blocked| == 4
    {
    }

    /** A node whose links are clear may be taken in hand. */
    lemma AnyHand(hand: RRNode?)
      requires Shape(null)
      ensures Shape(hand)
    {
    }

    lemma NodeFacts(p: Pid, hand: RRNode?)
      requires Shape(hand) && p < |process|
      ensures p in Model().nodes <==> process[p] != null
      ensures process[p] != null ==>
                process[p] in nodes && process[p].pid == p && NodeOf(Model(), p).quantum == process[p].quantum
      ensures IsCurrent(Model(), p) <==> process[p] != null && process[p] == current
    {
    }

    /** The process has a node, and the node is in no queue. */
    method TakeInHand(p: Pid)
      requires Valid() && p < |pcbs|
      modifies `process, `nodes, `renewed, queues`line, nodes`next, nodes`prev, nodes`home
      ensures |process| == |old(process)| && process[p] != null && Shape(process[p])
      ensures fresh(nodes - old(nodes)) && process[p] in nodes && process[p].pid == p && process[p].home == null
      ensures Model() == if p !in old(Model()).nodes then CreateNode(old(Model()), p) else Unlink(old(Model()), p)
      ensures Free()
    {
      hide Model, Shape, Unlink;
      NodeFacts(p, null);
      if process[p] == null {
        CreateNewNode(p);
      } else {
        NormalQueueRemoveNode(process[p]);
      }
    }

    method SetCurrent(node: RRNode?)
      requires node != null ==> node in nodes && node.pid < |process| && process[node.pid] == node
      modifies `current, `renewed
      ensures CurrentKnown() && current == node
      ensures Model() == WithCurrent(old(Model()), if node == null then None else Some(node.pid))
    {
      hide Contents, NodesIn;
      current := node;
      renewed := false;
    }

    /** The running process that changed its state has had its turn. */
    method LeaveProcessor(p: Pid, ghost hand: RRNode?)
      requires Shape(hand) && p < |process| && p < |pcbs|
      modifies `current, `renewed, `pcbs, nodes`turns
      ensures Shape(hand) && |pcbs| == |old(pcbs)| && (PrioritiesInRange(old(pcbs)) ==> PrioritiesInRange(pcbs))
      ensures var s := old(Model());
              Model() == if IsCurrent(s, p) then WithCurrent(Scheduler.UpdatePriority(s, p), None) else s
      ensures current == if old(process[p] != null && process[p] == current) then null else old(current)
    {
      hide Model, Layout, Threaded, Indexed, CurrentKnown, Scheduler.UpdatePriority, WithCurrent, IsCurrent;
      NodeFacts(p, hand);
      if process[p] != null && process[p] == current {
        UpdatePriority(process[p]);
        SetCurrent(null);
      }
    }

    /** `nullUpdate` is the call of updatePriority on NULL: a node is freed while nobody runs. */
    method RrNotifyProcessStateChange(p: Pid) returns (nullUpdate: bool)
      requires Valid() && p < |pcbs|
      modifies this, queues`line, nodes`next, nodes`prev, nodes`home, nodes`turns
      ensures Model() == NotifyStateChange(old(Model()), p)
      ensures nullUpdate <==> old(current) == null && HandedOver(old(pcbs)[p])
      ensures Settles(old(pcbs)[p]) ==> Valid()
    {
      hide Model, Shape, Scheduler.ChangeToRespectiveQueue, Scheduler.UpdatePriority, Unlink, WithCurrent, CreateNode;
      TableIsModelled();
      TakeInHand(p);
      ghost var node := process[p];
      var ok := ChangeToRespectiveQueue(process[p]);
      nullUpdate := process[p] == null && current == null;
      LeaveProcessor(p, if Settles(old(pcbs)[p]) then null else node);
    }

    method SetProcessState(caller: Pid, p: Pid, newState: PState, reason: Reason)
      returns (done: bool, nullUpdate: bool)
      requires Valid()
      modifies this, queues`line, nodes`next, nodes`prev, nodes`home, nodes`turns
      ensures Model() == Scheduler.SetProcessState(old(Model()), caller, p, newState, reason)
      ensures done <==> Accepts(old(Model()), caller, p, newState)
      ensures nullUpdate <==>
                done && old(current) == null && HandedOver(Requested(PcbIn(old(pcbs), p), newState, reason))
      ensures !(done && newState.RUNNING?) ==> Valid()
    {
      hide Model, Shape, NotifyStateChange;
      TableIsModelled();
      if p >= |pcbs| || pcbs[p].state == UN_BORN || newState == UN_BORN {
        return false, false;
      }
      if pcbs[p].state == newState {
        return false, false;
      }
      if newState == DEAD && p == INIT_PID && p != caller {
        return false, false;
      }
      var effective := newState;
      if newState == BLOCKED && reason == KEYBOARD && !pcbs[p].foreground {
        effective := DEAD;
      }
      DirectSetProcessState(p, effective, reason);
      nullUpdate := RrNotifyProcessStateChange(p);
      return true, nullUpdate;
    }

    method RrNotifyProcessPriorityChange(p: Pid)
      requires Shape(null) && Free() && p < |process| && p < |pcbs|
      modifies `process, `pcbs, queues`line, nodes`next, nodes`prev, nodes`home
      ensures var s := old(Model());
              Model() == if p in s.nodes && !IsCurrent(s, p) && !Gone(PcbOf(s, p).state)
                         then Scheduler.ChangeToRespectiveQueue(Unlink(s, p), p) else s
      ensures |process| == |old(process)| && Free()
      ensures SamePriorities(old(pcbs), pcbs)
      ensures Settles(old(pcbs)[p]) || Gone(old(pcbs)[p].state) ==> Shape(null)
      ensures p !in old(Model()).nodes || IsCurrent(old(Model()), p) ==> Shape(null)
    {
      hide Model, Shape, Scheduler.ChangeToRespectiveQueue, Unlink, IsCurrent;
      NodeFacts(p, null);
      TableIsModelled();
      if process[p] != null && current != process[p] && !Gone(pcbs[p].state) {
        var node := process[p];
        NormalQueueRemoveNode(node);
        var ok := ChangeToRespectiveQueue(node);
      }
    }

    method WritePriority(p: Pid, newPriority: int, nice: bool)
      requires p < |pcbs|
      modifies `pcbs
      ensures var pcb := old(pcbs)[p];
              var kind := if nice then DO_NOT_CHANGE else pcb.priorityType;
              pcbs == old(pcbs)[p := pcb.(priority := newPriority, priorityType := kind)] &&
              Model() == WithPcb(old(Model()), p, pcb.(priority := newPriority, priorityType := kind))
    {
      hide Contents, NodesIn;
      if nice {
        pcbs := pcbs[p := pcbs[p].(priorityType := DO_NOT_CHANGE)];
      }
      pcbs := pcbs[p := pcbs[p].(priority := newPriority)];
    }

    method SetProcessPriority(p: Pid, newPriority: int, nice: bool) returns (done: bool)
      requires Valid()
      modifies this, queues`line, nodes`next, nodes`prev, nodes`home
      ensures Model() == Scheduler.SetProcessPriority(old(Model()), p, newPriority, nice)
      ensures done <==> Reprioritizes(PcbIn(old(pcbs), p), newPriority)
      ensures Inv(old(Model())) ==> (Valid() <==> !LeavesLevels(old(Model()), p, newPriority))
    {
      hide Model, Shape, Scheduler.ChangeToRespectiveQueue, Unlink, Inv;
      TableIsModelled();
      done := p < |pcbs| && pcbs[p].state != UN_BORN && IsValidPriority(newPriority) &&
              pcbs[p].priorityType != INTERACTIVE && pcbs[p].priority != newPriority;
      if !done {
        return;
      }
      if Inv(Model()) {
        QueuedDoesNotRun(Model(), p);
      }
      WritePriority(p, newPriority, nice);
      assert pcbs[p].priority == newPriority;
      RrNotifyProcessPriorityChange(p);
    }

    // ---------------------------------------------------------------- wake-ups

    lemma CurrentFacts()
      requires Valid()
      ensures current == null ==> Model().current == None
      ensures current != null ==>
                Model().current == Some(current.pid) && current.pid < |process| &&
                0 <= pcbs[current.pid].priority < PRIORITY_LEVELS
      ensures Zombie(Model()) <==> current != null && process[current.pid] != current
    {
    }

    method AddToFront(k: nat, node: RRNode)
      requires Shape(null) && k < PRIORITY_LEVELS && node in nodes && node.home == null && node.pid < |process|
      modifies queues`line, nodes`next, nodes`prev, nodes`home
      ensures Threaded(null) <==> process[node.pid] == node
      ensures Model() == old(Model()).(running := AddHead(old(Model()).running, k, node.pid))
      ensures forall n :: n in nodes && n != node ==> n.home == old(n.home)
    {
      hide Threaded, Indexed, CurrentKnown, RRQueue.Pids, Contents, NodesIn;
      Prepend(runningQueues[k], node);
      assert Contents(runningQueues) == AddHead(old(Contents(runningQueues)), k, node.pid);
      assert Contents(finishedQueues) == old(Contents(finishedQueues));
      assert Contents(blockedArr) == old(Contents(blockedArr));
    }

    /** The running process, if any, to the front of its level. */
    method RequeueCurrent()
      requires Valid()
      modifies `pcbs, queues`line, nodes`next, nodes`prev, nodes`home
      ensures var s := old(Model());
              Model() == match s.current
                         case None => s
                         case Some(c) =>
                           SetState(s, c, READY, NO_REASON).(running := AddHead(s.running, Priority(s, c), c))
      ensures Threaded(null) <==> !Zombie(old(Model()))
      ensures SamePriorities(old(pcbs), pcbs)
      ensures forall n :: n in nodes && n != current ==> n.home == old(n.home)
    {
      hide Model, Layout, Threaded, Indexed, CurrentKnown, Zombie;
      CurrentFacts();
      TableIsModelled();
      if current != null {
        DirectSetProcessState(current.pid, READY, NO_REASON);
        AddToFront(pcbs[current.pid].priority, current);
      }
    }

    method PreemptProcess(node: RRNode)
      requires Valid() && node in nodes && node.home == null && node.pid < |process| && process[node.pid] == node
      requires current != node
      modifies `current, `renewed, `pcbs, queues`line, nodes`next, nodes`prev, nodes`home, nodes`quantum
      ensures Model() == Preempt(old(Model()), node.pid)
      ensures Valid() <==> !Zombie(old(Model()))
    {
      hide Model, Layout, Threaded, Indexed, CurrentKnown, Scheduler.SetNodeQuantum, Zombie, WithCurrent, SetState;
      RequeueCurrent();
      DirectSetProcessState(node.pid, RUNNING, NO_REASON);
      SetNodeQuantum(node);
      SetCurrent(node);
    }

    /** normalQueuePop on a blocked queue. */
    method PopBlocked(k: nat) returns (node: RRNode?)
      requires Shape(null) && k < 4
      modifies queues`line, nodes`next, nodes`prev, nodes`home
      ensures Shape(null)
      ensures var s := old(Model());
              if node == null then s.blocked[k] == [] && Model() == s
              else s.blocked[k] != [] && s.blocked[k][0] == node.pid &&
                   Model() == s.(blocked := s.blocked[k := s.blocked[k][1..]])
      ensures node != null ==>
                node in nodes && node.home == null && old(node.home) != null &&
                node.pid < |process| && process[node.pid] == node
      ensures forall n :: n in nodes && n != node ==> n.home == old(n.home)
    {
      hide Threaded, Indexed, CurrentKnown, RRQueue.Pids, Contents, NodesIn;
      assert blockedArr[k] in blockedArr;
      node := Take(blockedArr[k]);
      ghost var was := old(Contents(blockedArr));
      assert node == null ==> Contents(blockedArr) == was;
      assert node != null ==> Contents(blockedArr) == was[k := was[k][1..]];
      assert Contents(runningQueues) == old(Contents(runningQueues));
      assert Contents(finishedQueues) == old(Contents(finishedQueues));
    }

    method RrUnblockWaiters(reason: Reason) returns (woke: bool)
      requires Valid()
      modifies this, queues`line, nodes`next, nodes`prev, nodes`home, nodes`quantum
      ensures Model() == UnblockWaiters(old(Model()), reason)
      ensures woke <==> old(Model()).blocked[ReasonIndex(reason)] != []
      ensures Inv(old(Model())) ==> (Valid() <==> !PreemptsZombie(old(Model()), reason))
    {
      hide Model, Shape, Scheduler.ChangeToRespectiveQueue, Preempt, Inv;
      TableIsModelled();
      ModelSizes(null);
      if Inv(Model()) {
        WaiterIsBlocked(Model(), ReasonIndex(reason));
      }
      var node := PopBlocked(ReasonIndex(reason));
      if node == null {
        return false;
      }
      woke := true;
      TableIsModelled();
      AnyHand(node);
      if pcbs[node.pid].state == DEAD {
        var ok := ChangeToRespectiveQueue(node);
      } else if reason == KEYBOARD {
        PreemptProcess(node);
      } else {
        DirectSetProcessState(node.pid, READY, NO_REASON);
        var ok := ChangeToRespectiveQueue(node);
      }
    }

    // ---------------------------------------------------------------- the tick

    /** rrIsEmpty on a level of the running queues. */
    method LevelIsEmpty(k: nat) returns (empty: bool)
      requires Shape(null) && k < PRIORITY_LEVELS
      ensures k < |Model().running| == PRIORITY_LEVELS && (empty <==> Model().running[k] == [])
    {
      hide Known, Tracked, Indexed, CurrentKnown, NodesIn;
      empty := runningQueues[k].IsEmpty();
    }

    /** getNextQueueAux: the level to pop from, one past the last when all are empty. */
    method GetNextQueueAux() returns (k: nat)
      requires Shape(null)
      ensures k == FirstLevel(Model().running) <= PRIORITY_LEVELS
    {
      hide Model, Shape;
      ModelSizes(null);
      k := 0;
      ghost var levels := Model().running;
      while k < PRIORITY_LEVELS
        invariant k <= PRIORITY_LEVELS && k + FirstLevel(levels[k..]) == FirstLevel(levels)
      {
        var empty := LevelIsEmpty(k);
        if !empty {
          return;
        }
        assert levels[k..][1..] == levels[k + 1..];
        k := k + 1;
      }
    }

    /** switchStructures */
    method SwitchStructures()
      requires Shape(null)
      modifies `runningQueues, `finishedQueues
      ensures Shape(null)
      ensures Model() == old(Model()).(running := old(Model()).finished, finished := old(Model()).running)
    {
      hide Threaded, Indexed, CurrentKnown, Contents, NodesIn;
      runningQueues, finishedQueues := finishedQueues, runningQueues;
    }

    /** getNextQueue */
    method GetNextQueue() returns (k: nat)
      requires Shape(null)
      modifies `runningQueues, `finishedQueues
      ensures Shape(null) && Model() == SwapIfDrained(old(Model()))
      ensures k == FirstLevel(Model().running) <= PRIORITY_LEVELS
    {
      hide Model, Shape;
      ModelSizes(null);
      k := GetNextQueueAux();
      if k == PRIORITY_LEVELS {
        SwitchStructures();
        k := GetNextQueueAux();
      }
    }

    /** normalQueuePop on a level of the running queues. */
    method PopRunning(k: nat) returns (node: RRNode?)
      requires Shape(null) && k < PRIORITY_LEVELS
      modifies queues`line, nodes`next, nodes`prev, nodes`home
      ensures Shape(null)
      ensures var s := old(Model());
              k < |s.running| &&
              if node == null then s.running[k] == [] && Model() == s
              else s.running[k] != [] && s.running[k][0] == node.pid &&
                   Model() == s.(running := s.running[k := s.running[k][1..]])
      ensures node != null ==>
                node in nodes && node.home == null && node.pid < |process| && process[node.pid] == node
    {
      hide Threaded, Indexed, CurrentKnown, RRQueue.Pids, Contents, NodesIn;
      assert runningQueues[k] in runningQueues;
      node := Take(runningQueues[k]);
      ghost var was := old(Contents(runningQueues));
      assert node == null ==> Contents(runningQueues) == was;
      assert node != null ==> Contents(runningQueues) == was[k := was[k][1..]];
      assert Contents(finishedQueues) == old(Contents(finishedQueues));
      assert Contents(blockedArr) == old(Contents(blockedArr));
    }

    /** getNextReadyNode */
    method GetNextReadyNode() returns (next: RRNode?)
      requires Shape(null) && |process| == |pcbs|
      modifies `runningQueues, `finishedQueues, `process, `pcbs, queues`line, nodes`next, nodes`prev, nodes`home
      ensures Shape(null) && |process| == |pcbs| && SamePriorities(old(pcbs), pcbs)
      ensures (Model(), if next == null then None else Some(next.pid)) == NextReady(old(Model()))
      ensures next != null ==>
                next in nodes && next.home == null && next.pid < |process| && process[next.pid] == next
    {
      hide Model, Shape, Scheduler.ChangeToRespectiveQueue, SwapIfDrained, FirstLevel;
      ModelSizes(null);
      var k := GetNextQueue();
      ModelSizes(null);
      if k == PRIORITY_LEVELS {
        return null;
      }
      ghost var before := Model();
      next := PopRunning(k);
      while next != null && Gone(pcbs[next.pid].state)
        invariant Shape(null) && |process| == |pcbs| && SamePriorities(old(pcbs), pcbs)
        invariant k < |before.running| && PopReady(before, k) == NextReady(old(Model()))
        invariant if next == null then before.running[k] == [] && Model() == before
                  else before.running[k] != [] && before.running[k][0] == next.pid &&
                       Model() == before.(running := before.running[k := before.running[k][1..]])
        invariant next != null ==>
                    next in nodes && next.home == null && next.pid < |process| && process[next.pid] == next
        decreases |before.running[k]|
      {
        TableIsModelled();
        AnyHand(next);
        GoneLeavesReady(Model(), next.pid);
        var ok := ChangeToRespectiveQueue(next);
        before := Model();
        next := PopRunning(k);
      }
      TableIsModelled();
    }

    method UseQuantum(node: RRNode)
      requires node.pid < |process| && process[node.pid] == node && Indexed()
      modifies node`quantum
      ensures NodeOf(old(Model()), node.pid).quantum == old(node.quantum)
      ensures var n := NodeOf(old(Model()), node.pid);
              Model() == WithNode(old(Model()), node.pid, n.(quantum := n.quantum - 1))
    {
      node.quantum := node.quantum - 1;
      assert old(NodesIn(process)[node.pid]) == Node(old(node.quantum), node.turns);
      assert NodesIn(process) == old(NodesIn(process))[node.pid := Node(node.quantum, node.turns)];
    }

    /** handleCurrent: whether the running process goes on. */
    method HandleCurrent() returns (goesOn: bool)
      requires Valid() && Inv(Model())
      modifies `process, `pcbs, queues`line, nodes`next, nodes`prev, nodes`home, nodes`quantum, nodes`turns
      ensures Shape(null) && |process| == |pcbs| && PrioritiesInRange(pcbs) && (goesOn ==> Valid())
      ensures (Model(), goesOn) == Scheduler.HandleCurrent(old(Model()))
    {
      hide Model, Layout, Threaded, Scheduler.ChangeToRespectiveQueue, Scheduler.UpdatePriority;
      CurrentFacts();
      TableIsModelled();
      CurrentHasItsNode(Model());
      if current != null {
        AnyHand(current);
        NodeFacts(current.pid, null);
        if Gone(pcbs[current.pid].state) {
          var ok := ChangeToRespectiveQueue(current);
        } else if current.quantum > 0 {
          UseQuantum(current);
          return true;
        } else {
          UpdatePriority(current);
          DirectSetProcessState(current.pid, READY, NO_REASON);
          TableIsModelled();
          AddToFinished(pcbs[current.pid].priority, current);
        }
      }
      return false;
    }

    /** The chosen node gets a fresh quantum and runs. */
    method Dispatch(node: RRNode)
      requires Shape(null) && |process| == |pcbs| && PrioritiesInRange(pcbs) && node in nodes && node.home == null
      requires node.pid < |process| && process[node.pid] == node
      modifies `current, `renewed, `pcbs, nodes`quantum
      ensures Valid() && Model() == Scheduler.Dispatch(old(Model()), node.pid) && current == node
    {
      hide Model, Layout, Threaded, Indexed, CurrentKnown, Scheduler.SetNodeQuantum, SetState, WithCurrent;
      SetNodeQuantum(node);
      DirectSetProcessState(node.pid, RUNNING, NO_REASON);
      SetCurrent(node);
    }

    /** rrNextAvailableProcess; null means the busy-waiting process runs. */
    method RrNextAvailableProcess() returns (next: RRNode?)
      requires Valid() && Inv(Model())
      modifies this, queues`line, nodes`next, nodes`prev, nodes`home, nodes`quantum, nodes`turns
      ensures Valid() && Model() == Tick(old(Model())) && next == current
    {
      hide Model, Layout, Threaded, Indexed, CurrentKnown, Inv, Scheduler.HandleCurrent, NextReady;
      hide Scheduler.Dispatch, WithCurrent;
      var goesOn := HandleCurrent();
      if goesOn {
        return current;
      }
      next := GetNextReadyNode();
      if next == null {
        SetCurrent(null);
      } else {
        Dispatch(next);
      }
    }

    // ---------------------------------------------------------------- whole events

    /** newProcess, as far as the control block goes. */
    method WriteNewPcb(p: Pid, priority: int, kind: PriorityType, foreground: bool)
      requires Valid() && 0 <= priority < PRIORITY_LEVELS
      modifies `pcbs
      ensures Valid() && Model() == SchedulerRuns.Born(old(Model()), p, priority, kind, foreground)
    {
      hide Shape, Contents, NodesIn;
      if p < |pcbs| {
        pcbs := pcbs[p := Pcb(BORN, NO_REASON, priority, kind, foreground)];
      }
    }

    method SetQuantum(newQuantum: int)
      requires Valid()
      modifies `rrQuantum
      ensures Valid() && Model() == SchedulerRuns.Apply(old(Model()), SchedulerRuns.NewQuantum(newQuantum))
    {
      hide Shape, Contents, NodesIn;
      if newQuantum > 0 {
        rrQuantum := newQuantum;
      }
    }

    /** Every event the kernel raises keeps the links of all queues and the partition, and is the state
        machine's step. */
    method Handle(e: SchedulerRuns.Event)
      requires Valid() && Inv(Model()) && SchedulerRuns.Raises(Model(), e)
      modifies this, queues`line, nodes`next, nodes`prev, nodes`home, nodes`quantum, nodes`turns
      ensures Valid() && Inv(Model()) && Model() == SchedulerRuns.Apply(old(Model()), e)
    {
      hide Model, Shape, Inv, Tick, AddProcess, Scheduler.SetProcessState, Scheduler.SetProcessPriority, UnblockWaiters;
      TableIsModelled();
      SchedulerRuns.EventKeepsInv(Model(), e);
      match e {
        case Timer =>
          var next := RrNextAvailableProcess();
        case Birth(p, priority, kind, foreground) =>
          WriteNewPcb(p, priority, kind, foreground);
        case Add(p) =>
          var ok := RrAddProcess(p);
        case Change(caller, p, st, reason) =>
          var done, nullUpdate := SetProcessState(caller, p, st, reason);
        case Prioritize(p, priority, nice) =>
          var done := SetProcessPriority(p, priority, nice);
        case Wake(reason) =>
          var woke := RrUnblockWaiters(reason);
        case NewQuantum(quantum) =>
          SetQuantum(quantum);
      }
    }

    /** Spelled out: no node is in two queues, a queued node is the one its process is known by, and a node
        outside the queues has no stale links. */
    lemma NodesAreApart()
      requires Valid()
      ensures forall q, r, n :: q in queues && r in queues && n in q.line && n in r.line ==> q == r
      ensures forall q, n :: q in queues && n in nodes && q.Holds(n) ==> n.pid < |process| && process[n.pid] == n
      ensures forall p :: 0 <= p < |process| && process[p] != null ==>
                process[p].home != null || (process[p].next == null && process[p].prev == null)
    {
    }
  }

  /** A process with a node that is not the running one does not run. */
  lemma QueuedDoesNotRun(s: Sched, p: Pid)
    requires Inv(s)
    ensures p in s.nodes && !IsCurrent(s, p) ==> !PcbOf(s, p).state.RUNNING?
  {
    if p in s.nodes && !IsCurrent(s, p) {
      if s.current == Some(p) {
        ZombieHasNoNode(s);
      }
      NodeIsQueued(s, p);
    }
  }

  lemma WaiterIsBlocked(s: Sched, k: nat)
    requires Inv(s) && k < 4
    ensures s.blocked[k] != [] ==> PcbOf(s, s.blocked[k][0]).state.BLOCKED?
  {
    if s.blocked[k] != [] {
      assert s.blocked[k][0] in s.blocked[k];
    }
  }

  /** A blocked or dead process in hand goes to no ready queue. */
  lemma GoneLeavesReady(s: Sched, p: Pid)
    requires Gone(PcbOf(s, p).state)
    ensures ChangeToRespectiveQueue(s, p).running == s.running && ChangeToRespectiveQueue(s, p).pcbs == s.pcbs
  {
  }

  /** The running process has its node, unless the scheduler gave it up and it has none. */
  lemma CurrentHasItsNode(s: Sched)
    requires Inv(s)
    ensures s.current.Some? ==>
              var c := s.current.value;
              if Gone(PcbOf(s, c).state) then c !in s.nodes && HandedOver(PcbOf(s, c)) else IsCurrent(s, c)
  {
    if Zombie(s) {
      ZombieHasNoNode(s);
    }
  }
}

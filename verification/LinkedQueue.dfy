/** The doubly linked queues of the scheduler: sentinels inside the queue record, O(1) removal by node. */
module LinkedQueue {
  import Scheduler
  import SchedulerInvariant

  /** rrNode; `home` is the queue it is linked in, for a sentinel the one it belongs to. */
  class RRNode {
    const pid: nat
    var quantum: int
    var turns: nat
    var next: RRNode?
    var prev: RRNode?
    ghost var home: RRQueue?

    /** A node as kernelMalloc hands it out: its links are not set. */
    constructor (pid: nat, quantum: int)
      ensures this.pid == pid && this.quantum == quantum && turns == 0 && home == null
    {
      this.pid := pid;
      this.quantum := quantum;
      turns := 0;
      home := null;
    }
  }

  /** rrQueue; `line` is everything from the first sentinel to the last. */
  class RRQueue {
    const head: RRNode
    const tail: RRNode
    ghost var line: seq<RRNode>

    ghost predicate Valid()
      reads this`line
      reads line`home, line`next, line`prev
    {
      |line| >= 2 && line[0] == head && line[|line| - 1] == tail && Distinct(line) &&
      (forall n :: n in line ==> n.home == this) &&
      (Chained(line) || (|line| == 2 && head.next == null && tail.prev == null))
    }

    ghost predicate Holds(node: RRNode)
      reads this`line
    {
      node in line && node != head && node != tail
    }

    /** The pids in the queue, as the scheduler's state machine lists them. */
    ghost function Pids(): (s: seq<nat>)
      reads this`line
    {
      PidsOf(Inner(line))
    }

    /** A queue record after resetQueue. */
    constructor ()
      ensures Valid() && line == [head, tail] && fresh(head) && fresh(tail)
    {
      head := new RRNode(0, 0);
      tail := new RRNode(0, 0);
      new;
      line := [head, tail];
      head.home, tail.home := this, this;
      head.next := null;
      tail.prev := null;
    }

    /** Neighbours in the line point at each other. */
    lemma Neighbours(k: nat)
      requires Valid() && Chained(line) && k + 1 < |line|
      ensures line[k].next == line[k + 1] && line[k + 1].prev == line[k]
    {
      assert Link(line, k);
    }

    /** rrIsEmpty */
    method IsEmpty() returns (empty: bool)
      requires Valid()
      ensures empty <==> |line| == 2
    {
      if Chained(line) {
        Neighbours(0);
        Neighbours(|line| - 2);
        assert |line| > 2 ==> line[1] != line[|line| - 1];
      }
      empty := head.next == tail || head.next == null || tail.prev == null;
    }

    /** normalQueueAddNodeHead */
    method AddNodeHead(newNode: RRNode)
      requires Valid() && newNode.home == null
      modifies this`line, line`next, line`prev
      modifies newNode`next, newNode`prev, newNode`home
      ensures Valid() && line == Extended(old(line), 1, newNode) && newNode.home == this
      ensures Pids() == [newNode.pid] + old(Pids())
      ensures forall n: RRNode :: n in line <==> n in old(line) || n == newNode
    {
      ghost var was := line;
      var empty := IsEmpty();
      if empty {
        head.next := newNode;
        tail.prev := newNode;
        newNode.prev := head;
        newNode.next := tail;
      } else {
        Neighbours(0);
        head.next.prev := newNode;
        newNode.next := head.next;
        head.next := newNode;
        newNode.prev := head;
      }
      newNode.home := this;
      hide Extended, Inner, PidsOf;
      line := Extended(was, 1, newNode);
      forall i | 0 < i < |was| - 1 ensures Link(was, i) {
        assert old(Link(was, i));
      }
      ExtendedFacts(was, 1, newNode);
      ExtendedChained(was, 1, newNode);
    }

    /** normalQueueAddNodeTail */
    method AddNodeTail(newNode: RRNode)
      requires Valid() && newNode.home == null
      modifies this`line, line`next, line`prev
      modifies newNode`next, newNode`prev, newNode`home
      ensures Valid() && line == Extended(old(line), |old(line)| - 1, newNode) && newNode.home == this
      ensures Pids() == old(Pids()) + [newNode.pid]
      ensures forall n: RRNode :: n in line <==> n in old(line) || n == newNode
    {
      ghost var was := line;
      var empty := IsEmpty();
      if empty {
        AddNodeHead(newNode);
      } else {
        ghost var k := |was| - 1;
        Neighbours(k - 1);
        newNode.prev := tail.prev;
        tail.prev.next := newNode;
        tail.prev := newNode;
        newNode.next := tail;
        newNode.home := this;
        hide Extended, Inner, PidsOf;
        line := Extended(was, k, newNode);
        forall i | 0 <= i < k - 1 ensures Link(was, i) {
          assert old(Link(was, i));
        }
        ExtendedFacts(was, k, newNode);
        ExtendedChained(was, k, newNode);
      }
    }

    /** normalQueuePop */
    method Pop() returns (node: RRNode?)
      requires Valid()
      modifies this`line, line`next, line`prev, line`home
      ensures Valid()
      ensures |old(line)| == 2 ==> node == null && line == old(line)
      ensures |old(line)| > 2 ==>
                node == old(line)[1] && line == Removed(old(line), 1) &&
                node.home == null && node.next == null && node.prev == null && [node.pid] + Pids() == old(Pids())
      ensures forall n :: n in old(line) && n != node ==> n.home == old(n.home)
      ensures node != null ==> old(Holds(node))
      ensures forall n: RRNode :: n in line <==> n in old(line) && n != node
    {
      ghost var was := line;
      var empty := IsEmpty();
      if empty {
        return null;
      }
      Neighbours(0);
      Neighbours(1);
      Neighbours(|was| - 2);
      assert |was| > 3 ==> was[2] != tail;
      node := head.next;
      head.next := node.next;
      node.next.prev := head;
      node.next := null;
      node.prev := null;
      node.home := null;
      hide Removed, Inner, PidsOf;
      line := Removed(was, 1);
      forall i | 1 < i < |was| - 1 ensures Link(was, i) {
        assert old(Link(was, i));
      }
      RemovedFacts(was, 1);
      RemovedChained(was, 1);
      if head.next == tail || head.next == null || tail.prev == null {
        head.next := null;
        tail.prev := null;
      }
    }

    /** The two assignments of normalQueueRemoveNode, on the k-th place of a chain. */
    static method Relink(node: RRNode, ghost q: seq<RRNode>, ghost k: nat)
      requires Distinct(q) && Chained(q) && 0 < k < |q| - 1 && q[k] == node
      modifies {q[k - 1]}`next, {q[k + 1]}`prev
      ensures q[k - 1].next == q[k + 1] && q[k + 1].prev == q[k - 1]
      ensures forall i :: 0 <= i < |q| - 1 && i != k - 1 && i != k ==> Link(q, i)
    {
      assert Link(q, k - 1) && Link(q, k);
      node.prev.next := node.next;
      node.next.prev := node.prev;
      forall i | 0 <= i < |q| - 1 && i != k - 1 && i != k ensures Link(q, i) {
        assert old(Link(q, i));
      }
    }

    /** normalQueueRemoveNode: given the node alone, its neighbours are relinked; its own links stay. */
    static method RemoveNode(node: RRNode) returns (ghost k: nat)
      requires node.home != null && node.home.Valid() && node.home.Holds(node)
      modifies node.home`line, node`home
      modifies node.home.line`next, node.home.line`prev
      ensures var q := old(node.home);
              q.Valid() && node.home == null && 0 < k < |old(q.line)| - 1 && old(q.line)[k] == node &&
              q.line == Removed(old(q.line), k) &&
              forall n: RRNode :: n in q.line <==> n in old(q.line) && n != node
      ensures node.next == old(node.next) && node.prev == old(node.prev)
    {
      ghost var queue := node.home;
      ghost var was := queue.line;
      hide Removed, Inner, PidsOf;
      k :| 0 < k < |was| - 1 && was[k] == node;
      assert Chained(was);
      Relink(node, was, k);
      node.home := null;
      queue.line := Removed(was, k);
      RemovedFacts(was, k);
      RemovedChained(was, k);
    }
  }

  ghost predicate Distinct(s: seq<RRNode>) {
    forall i, j :: 0 <= i < j < |s| ==> s[i] != s[j]
  }

  ghost predicate Link(s: seq<RRNode>, i: nat)
    requires i + 1 < |s|
    reads s`next, s`prev
  {
    s[i].next == s[i + 1] && s[i + 1].prev == s[i]
  }

  ghost predicate Chained(s: seq<RRNode>)
    reads s`next, s`prev
  {
    forall i :: 0 <= i < |s| - 1 ==> Link(s, i)
  }

  ghost function Extended(s: seq<RRNode>, k: nat, node: RRNode): seq<RRNode>
    requires k <= |s|
  {
    s[..k] + [node] + s[k..]
  }

  ghost function Removed(s: seq<RRNode>, k: nat): seq<RRNode>
    requires k < |s|
  {
    s[..k] + s[k + 1..]
  }

  lemma ExtendedFacts(s: seq<RRNode>, k: nat, node: RRNode)
    requires Distinct(s) && 0 < k < |s| && node !in s
    ensures var t := Extended(s, k, node);
            Distinct(t) && |t| == |s| + 1 && t[0] == s[0] && t[|s|] == s[|s| - 1]
    ensures k == 1 ==> PidsOf(Inner(Extended(s, k, node))) == [node.pid] + PidsOf(Inner(s))
    ensures k == |s| - 1 ==> PidsOf(Inner(Extended(s, k, node))) == PidsOf(Inner(s)) + [node.pid]
    ensures forall n :: n in Extended(s, k, node) <==> n in s || n == node
  {
    var t := Extended(s, k, node);
    assert s == s[..k] + s[k..];
    forall i, j | 0 <= i < j < |t| ensures t[i] != t[j] {
      assert t[i] == if i < k then s[i] else if i == k then node else s[i - 1];
      assert t[j] == if j < k then s[j] else if j == k then node else s[j - 1];
    }
    if k == 1 {
      assert Inner(t) == [node] + Inner(s);
      PidsConcat([node], Inner(s));
    }
    if k == |s| - 1 {
      assert Inner(t) == Inner(s) + [node];
      PidsConcat(Inner(s), [node]);
    }
  }

  lemma RemovedAt(s: seq<RRNode>, k: nat, i: nat)
    requires k < |s| && i < |s| - 1
    ensures |Removed(s, k)| == |s| - 1 && Removed(s, k)[i] == s[if i < k then i else i + 1]
  {
  }

  lemma RemovedDistinct(s: seq<RRNode>, k: nat)
    requires Distinct(s) && 0 < k < |s| - 1
    ensures var t := Removed(s, k);
            Distinct(t) && |t| == |s| - 1 && t[0] == s[0] && t[|t| - 1] == s[|s| - 1]
  {
    hide Removed;
    var t := Removed(s, k);
    RemovedAt(s, k, 0);
    RemovedAt(s, k, |s| - 2);
    forall i, j | 0 <= i < j < |t| ensures t[i] != t[j] {
      RemovedAt(s, k, i);
      RemovedAt(s, k, j);
    }
  }

  lemma RemovedMembers(s: seq<RRNode>, k: nat, n: RRNode)
    requires Distinct(s) && 0 < k < |s| - 1
    ensures n in Removed(s, k) <==> n in s && n != s[k]
  {
    hide Removed;
    var t := Removed(s, k);
    RemovedAt(s, k, 0);
    if n in t {
      var i :| 0 <= i < |t| && t[i] == n;
      RemovedAt(s, k, i);
    }
    if n in s && n != s[k] {
      var i :| 0 <= i < |s| && s[i] == n;
      RemovedAt(s, k, if i < k then i else i - 1);
    }
  }

  lemma RemovedFacts(s: seq<RRNode>, k: nat)
    requires Distinct(s) && 0 < k < |s| - 1
    ensures var t := Removed(s, k);
            Distinct(t) && |t| == |s| - 1 && t[0] == s[0] && t[|t| - 1] == s[|s| - 1]
    ensures forall n :: n in Removed(s, k) <==> n in s && n != s[k]
    ensures k == 1 ==> PidsOf(Inner(s)) == [s[1].pid] + PidsOf(Inner(Removed(s, k)))
  {
    RemovedDistinct(s, k);
    forall n: RRNode ensures n in Removed(s, k) <==> n in s && n != s[k] {
      RemovedMembers(s, k, n);
    }
    if k == 1 {
      assert Inner(s) == [s[1]] + Inner(Removed(s, k));
      PidsConcat([s[1]], Inner(Removed(s, k)));
    }
  }

  /** A chain with a node linked in between places k - 1 and k. */
  lemma ExtendedChained(s: seq<RRNode>, k: nat, node: RRNode)
    requires 0 < k < |s| && forall i :: 0 <= i < |s| - 1 && i != k - 1 ==> Link(s, i)
    requires s[k - 1].next == node && node.prev == s[k - 1] && node.next == s[k] && s[k].prev == node
    ensures Chained(Extended(s, k, node))
  {
    var t := Extended(s, k, node);
    forall i | 0 <= i < |t| - 1 ensures Link(t, i) {
      assert i < k - 1 ==> Link(s, i);
      assert i > k ==> Link(s, i - 1);
    }
  }

  /** A chain whose k-th place is jumped over. */
  lemma RemovedChained(s: seq<RRNode>, k: nat)
    requires 0 < k < |s| - 1 && forall i :: 0 <= i < |s| - 1 && i != k - 1 && i != k ==> Link(s, i)
    requires s[k - 1].next == s[k + 1] && s[k + 1].prev == s[k - 1]
    ensures Chained(Removed(s, k))
  {
    var t := Removed(s, k);
    forall i | 0 <= i < |t| - 1 ensures Link(t, i) {
      assert i < k - 1 ==> Link(s, i);
      assert i > k - 1 ==> Link(s, i + 1);
    }
  }

  /** What stands between the two sentinels. */
  ghost function Inner(line: seq<RRNode>): seq<RRNode> {
    if |line| >= 2 then line[1..|line| - 1] else []
  }

  ghost function PidsOf(s: seq<RRNode>): (p: seq<nat>)
    ensures |p| == |s| && forall i :: 0 <= i < |s| ==> p[i] == s[i].pid
  {
    seq(|s|, i requires 0 <= i < |s| => s[i].pid)
  }

  lemma PidsConcat(a: seq<RRNode>, b: seq<RRNode>)
    ensures PidsOf(a + b) == PidsOf(a) + PidsOf(b)
  {
  }

  /** Taking a node out of the line is what the scheduler's state machine calls Without, once pids are distinct. */
  lemma RemovalIsWithout(line: seq<RRNode>, k: nat)
    requires 0 < k < |line| - 1 && forall i :: 0 < i < |line| - 1 && i != k ==> line[i].pid != line[k].pid
    ensures PidsOf(Inner(Removed(line, k))) == Scheduler.Without(PidsOf(Inner(line)), line[k].pid)
  {
    var s := Inner(line);
    assert Inner(Removed(line, k)) == s[..k - 1] + s[k..];
    assert s == s[..k - 1] + ([line[k]] + s[k..]);
    PidsConcat(s[..k - 1], s[k..]);
    PidsConcat(s[..k - 1], [line[k]] + s[k..]);
    PidsConcat([line[k]], s[k..]);
    var p := PidsOf(s);
    forall i | 0 <= i < |p| && i != k - 1 ensures p[i] != p[k - 1] {
      assert s[i] == line[i + 1];
    }
    WithoutAt(p, k - 1);
  }

  lemma {:induction false} WithoutAt(q: seq<nat>, k: nat)
    requires k < |q| && forall i :: 0 <= i < |q| && i != k ==> q[i] != q[k]
    ensures Scheduler.Without(q, q[k]) == q[..k] + q[k + 1..]
  {
    if k == 0 {
      SchedulerInvariant.WithoutAbsent(q[1..], q[0]);
    } else {
      WithoutAt(q[1..], k - 1);
      assert q[..k] == [q[0]] + q[1..][..k - 1] && q[k + 1..] == q[1..][k..];
    }
  }
}

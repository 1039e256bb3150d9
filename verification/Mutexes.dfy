/** The kernel mutex: an exchanged word and a queue of at most five waiters, with hand-off on unlock. */
module Mutexes {
  import opened Options
  import opened BoundedQueue

  type Pid = nat

  const MAXINQUEUE := 5
  const UNUSED: int := -1

  /** mutex_t: the word and the waiting processes, next owner first. */
  datatype Mutex = Mutex(value: int, waiting: seq<Pid>)

  /** What a call of lockMutex means for its caller. */
  datatype Outcome = Acquired | Queued | NotQueued

  /** lockMutex: the word is exchanged with 1; on contention the caller queues up, or returns unblocked
      when the queue is full. */
  function Lock(m: Mutex, p: Pid): (Mutex, Outcome) {
    if m.value <= 0 then (m.(value := 1), Acquired)
    else if |m.waiting| == MAXINQUEUE then (m.(value := 1), NotQueued)
    else (Mutex(1, m.waiting + [p]), Queued)
  }

  /** tryToLockMutex: the exchange alone, with the old word. */
  function TryLock(m: Mutex): (Mutex, int) {
    (m.(value := 1), m.value)
  }

  /** unlockMutex: the first waiter becomes the owner, or the word is cleared. */
  function Unlock(m: Mutex): (Mutex, Option<Pid>) {
    if m.value == 0 then (m, None)
    else if m.waiting != [] then (m.(waiting := m.waiting[1..]), Some(m.waiting[0]))
    else (m.(value := 0), None)
  }

  // ---------------------------------------------------------------- the code, in place

  /** An entry of mutexList. The scheduler's part, blocking and waking, is the returned value. */
  class KernelMutex {
    var value: int
    const nextProcessInLine: Queue
    ghost var waiting: seq<Pid>

    ghost predicate Valid()
      reads this, nextProcessInLine, nextProcessInLine.slots
    {
      nextProcessInLine.Valid() && nextProcessInLine.capacity == MAXINQUEUE &&
      (value == UNUSED || value == 0 || value == 1) &&
      |waiting| == |nextProcessInLine.items| &&
      forall i :: 0 <= i < |waiting| ==> nextProcessInLine.items[i] == waiting[i]
    }

    ghost function Model(): Mutex
      reads this
    {
      Mutex(value, waiting)
    }

    /** startMutex with one of its two accepted values. */
    constructor (initValue: int)
      requires initValue == 0 || initValue == 1
      ensures Valid() && Model() == Mutex(initValue, []) && fresh(nextProcessInLine) && fresh(nextProcessInLine.slots)
    {
      value := initValue;
      waiting := [];
      nextProcessInLine := new Queue(MAXINQUEUE);
    }

    /** lockMutexASM: exchange the word with 1. */
    method Exchange(word: int) returns (was: int)
      modifies this`value
      ensures was == old(value) && value == word
    {
      was := value;
      value := word;
    }

    /** lockMutex; `boosted` says that the caller's priority is raised to the best one. */
    method LockMutex(process: Pid) returns (code: int, outcome: Outcome, boosted: bool)
      requires Valid()
      modifies this`value, this`waiting, nextProcessInLine, nextProcessInLine.slots
      ensures Valid()
      ensures old(value) == UNUSED ==> code == -1 && Model() == old(Model()) && outcome == NotQueued && !boosted
      ensures old(value) != UNUSED ==>
                code == 0 && (Model(), outcome) == Lock(old(Model()), process) && (boosted <==> Model().waiting != [])
    {
      if value == UNUSED {
        return -1, NotQueued, false;
      }
      var was := Exchange(1);
      outcome := Acquired;
      if was > 0 {
        outcome := NotQueued;
        if !nextProcessInLine.IsFull() {
          nextProcessInLine.Enqueue(process);
          waiting := waiting + [process];
          outcome := Queued;
        }
      }
      code, boosted := 0, nextProcessInLine.size > 0;
    }

    method TryToLockMutex() returns (was: int)
      requires Valid()
      modifies this`value
      ensures Valid()
      ensures old(value) == UNUSED ==> was == -1 && Model() == old(Model())
      ensures old(value) != UNUSED ==> (Model(), was) == TryLock(old(Model()))
    {
      if value == UNUSED {
        return -1;
      }
      was := Exchange(1);
    }

    method UnlockMutex() returns (code: int, woken: Option<Pid>)
      requires Valid()
      modifies this`value, this`waiting, nextProcessInLine
      ensures Valid()
      ensures code == if old(value) == UNUSED || old(value) == 0 then -1 else 0
      ensures old(value) == UNUSED ==> Model() == old(Model()) && woken == None
      ensures old(value) != UNUSED ==> (Model(), woken) == Unlock(old(Model()))
    {
      if value == UNUSED || value == 0 {
        return -1, None;
      }
      code := 0;
      if !nextProcessInLine.IsEmpty() {
        var process := nextProcessInLine.Dequeue();
        woken := Some(process as nat);
        waiting := waiting[1..];
      } else {
        var was := Exchange(0);
        woken := None;
      }
    }

    /** destroyMutexK: a mutex whose word is taken stays. */
    method DestroyMutex() returns (code: int)
      requires Valid()
      modifies this`value
      ensures Valid()
      ensures if old(value) == 0 then code == 1 && value == UNUSED else code == -1 && value == old(value)
    {
      if value == UNUSED || value == 1 {
        return -1;
      }
      value := UNUSED;
      return 1;
    }
  }

  // ---------------------------------------------------------------- a mutex used as a lock

  /** A mutex and the processes that took it, by lockMutex or by a tryToLockMutex that returned 0, and have not
      unlocked since. */
  datatype Guarded = Guarded(m: Mutex, holders: set<Pid>)

  datatype Call = Acquire(p: Pid) | Attempt(p: Pid) | Release(p: Pid)

  function AfterCall(g: Guarded, c: Call): Guarded {
    match c
    case Acquire(p) =>
      var (m, outcome) := Lock(g.m, p);
      Guarded(m, if outcome.Queued? then g.holders else g.holders + {p})
    case Attempt(p) =>
      var (m, was) := TryLock(g.m);
      Guarded(m, if was == 0 then g.holders + {p} else g.holders)
    case Release(p) =>
      var (m, woken) := Unlock(g.m);
      Guarded(m, g.holders - {p} + if woken.Some? then {woken.value} else {})
  }

  /** A running process neither waits nor, to lock, holds the mutex already; only holders unlock. */
  predicate Sane(g: Guarded, c: Call) {
    match c
    case Acquire(p) => p !in g.holders && p !in g.m.waiting
    case Attempt(p) => p !in g.holders && p !in g.m.waiting
    case Release(p) => p in g.holders
  }

  /** The call that finds five waiters in line. */
  predicate FindsQueueFull(g: Guarded, c: Call) {
    c.Acquire? && g.m.value == 1 && |g.m.waiting| == MAXINQUEUE
  }

  ghost predicate NoRepeats(s: seq<Pid>) {
    forall i, j :: 0 <= i < j < |s| ==> s[i] != s[j]
  }

  /** At most one holder; the word is 0 exactly when nobody holds the mutex and nobody waits. */
  ghost predicate Exclusive(g: Guarded) {
    (g.m.value == 0 || g.m.value == 1) &&
    (g.m.value == 0 <==> g.holders == {} && g.m.waiting == []) &&
    (g.m.value == 1 <==> exists p :: g.holders == {p}) &&
    NoRepeats(g.m.waiting) && |g.m.waiting| <= MAXINQUEUE &&
    (forall p :: p in g.m.waiting ==> p !in g.holders)
  }

  /** Mutual exclusion survives a call exactly when the call does not find the waiter queue full. */
  lemma CallKeepsExclusionIff(g: Guarded, c: Call)
    requires Exclusive(g) && Sane(g, c)
    ensures Exclusive(AfterCall(g, c)) <==> !FindsQueueFull(g, c)
  {
    var g' := AfterCall(g, c);
    match c
    case Acquire(p) =>
      if g.m.value == 0 {
        assert g'.holders == {p};
      } else {
        var q :| g.holders == {q};
        if FindsQueueFull(g, c) {
          assert g'.holders == {p, q};
          TwoAreNotOne(p, q);
        }
      }
    case Attempt(p) =>
      if g.m.value == 0 {
        assert g'.holders == {p};
      }
    case Release(p) =>
      var q :| g.holders == {q};
      if g.m.waiting != [] {
        assert g'.holders == {g.m.waiting[0]};
        assert g.m.waiting[0] in g.m.waiting;
      } else {
        assert g'.holders == {};
      }
  }

  /** tryToLockMutex takes the mutex exactly when nobody holds it, and never lines up. */
  lemma AttemptTakesIfFree(g: Guarded, p: Pid)
    requires Exclusive(g) && Sane(g, Attempt(p))
    ensures var g' := AfterCall(g, Attempt(p));
            (p in g'.holders <==> g.holders == {}) && g'.m.waiting == g.m.waiting && g'.m.value == 1
  {
  }

  lemma TwoAreNotOne(p: Pid, q: Pid)
    requires p != q
    ensures forall r :: {p, q} != {r}
  {
    forall r ensures {p, q} != {r} {
      assert (p in {r} && q in {r}) ==> p == q;
    }
  }

  predicate Calls(g: Guarded, calls: seq<Call>)
    decreases |calls|
  {
    calls == [] || (Sane(g, calls[0]) && !FindsQueueFull(g, calls[0]) && Calls(AfterCall(g, calls[0]), calls[1..]))
  }

  function Run(g: Guarded, calls: seq<Call>): Guarded
    decreases |calls|
  {
    if calls == [] then g else Run(AfterCall(g, calls[0]), calls[1..])
  }

  /** Safety over all runs of a mutex started at 0. */
  lemma {:induction false} RunIsExclusive(g: Guarded, calls: seq<Call>)
    requires Exclusive(g) && Calls(g, calls)
    ensures Exclusive(Run(g, calls))
    decreases |calls|
  {
    if calls != [] {
      CallKeepsExclusionIff(g, calls[0]);
      RunIsExclusive(AfterCall(g, calls[0]), calls[1..]);
    }
  }

  lemma StartedIsExclusive()
    ensures Exclusive(Guarded(Mutex(0, []), {}))
  {
    var g := Guarded(Mutex(0, []), {});
    forall p ensures g.holders != {p} {
      assert p in {p};
    }
  }

  function Releases(calls: seq<Call>): nat {
    if calls == [] then 0 else (if calls[0].Release? then 1 else 0) + Releases(calls[1..])
  }

  /** FIFO hand-off: the waiter at position k has moved up one place per unlock, whatever else happened,
      and owns the mutex from the unlock number k + 1 on until it unlocks itself. */
  lemma {:induction false} WaiterMovesUp(g: Guarded, calls: seq<Call>, k: nat)
    requires Exclusive(g) && Calls(g, calls) && k < |g.m.waiting|
    ensures Releases(calls) <= k ==>
              var w := Run(g, calls).m.waiting; k - Releases(calls) < |w| && w[k - Releases(calls)] == g.m.waiting[k]
    ensures Releases(calls) == k + 1 ==> Run(g, calls).holders == {g.m.waiting[k]}
    decreases |calls|
  {
    if calls != [] {
      CallKeepsExclusionIff(g, calls[0]);
      var g' := AfterCall(g, calls[0]);
      if calls[0].Release? {
        var q :| g.holders == {q};
        if k > 0 {
          WaiterMovesUp(g', calls[1..], k - 1);
        } else {
          assert g'.holders == {g.m.waiting[0]};
          OwnerStays(g', calls[1..], g.m.waiting[0]);
        }
      } else {
        WaiterMovesUp(g', calls[1..], k);
      }
    }
  }

  lemma {:induction false} OwnerStays(g: Guarded, calls: seq<Call>, p: Pid)
    requires Exclusive(g) && Calls(g, calls) && g.holders == {p}
    ensures Releases(calls) == 0 ==> Run(g, calls).holders == {p}
    decreases |calls|
  {
    if calls != [] && !calls[0].Release? {
      CallKeepsExclusionIff(g, calls[0]);
      OwnerStays(AfterCall(g, calls[0]), calls[1..], p);
    }
  }

  // ---------------------------------------------------------------- the sixth waiter

  /** Two calls in a row. */
  lemma {:induction false} CallsConcat(g: Guarded, a: seq<Call>, b: seq<Call>)
    requires Calls(g, a) && Calls(Run(g, a), b)
    ensures Calls(g, a + b) && Run(g, a + b) == Run(Run(g, a), b)
    decreases |a|
  {
    if a == [] {
      assert a + b == b;
    } else {
      assert (a + b)[1..] == a[1..] + b;
      CallsConcat(AfterCall(g, a[0]), a[1..], b);
    }
  }

  /** n processes queue up behind the holder, pids 1 to n behind pid 0. */
  function Line(n: nat): seq<Pid> {
    seq(n, i => i + 1)
  }

  lemma {:induction false} LineUp(n: nat) returns (calls: seq<Call>)
    requires n <= MAXINQUEUE
    ensures var g := Guarded(Mutex(0, []), {}); Calls(g, calls) && Run(g, calls) == Guarded(Mutex(1, Line(n)), {0})
  {
    var g := Guarded(Mutex(0, []), {});
    if n == 0 {
      calls := [Acquire(0)];
      assert Line(0) == [];
    } else {
      var before := LineUp(n - 1);
      var call := [Acquire(n)];
      assert Line(n) == Line(n - 1) + [n];
      CallsConcat(g, before, call);
      calls := before + call;
    }
  }

  /** The case that breaks exclusion is reachable from a mutex that was just started: six calls fill the
      line, and the seventh process goes on beside the holder. */
  lemma SixthWaiterGoesOn() returns (calls: seq<Call>, g: Guarded)
    ensures Calls(Guarded(Mutex(0, []), {}), calls) && g == Run(Guarded(Mutex(0, []), {}), calls)
    ensures Sane(g, Acquire(6)) && FindsQueueFull(g, Acquire(6))
    ensures AfterCall(g, Acquire(6)).holders == {0, 6} && !Exclusive(AfterCall(g, Acquire(6)))
  {
    StartedIsExclusive();
    calls := LineUp(MAXINQUEUE);
    g := Run(Guarded(Mutex(0, []), {}), calls);
    RunIsExclusive(Guarded(Mutex(0, []), {}), calls);
    CallKeepsExclusionIff(g, Acquire(6));
  }
}

/** Waiting for the keyboard: first come, first woken, through every history; and what the woken process gets. */
module Waking {
  import opened Options
  import opened Scheduler
  import opened SchedulerInvariant
  import opened SchedulerEvents
  import opened SchedulerRuns
  import opened Requests

  // ---------------------------------------------------------------- one wake-up

  /** A key wakes the first in line, which runs at once with a full quantum; the process that ran is ready,
      first of its level, with what was left of its quantum; nobody else is touched. */
  lemma KeyRunsFirstInLine(s: Sched)
    requires Inv(s) && !Zombie(s) && s.blocked[0] != []
    ensures var t, p := UnblockWaiters(s, KEYBOARD), s.blocked[0][0];
            t.current == Some(p) && PcbOf(t, p) == PcbOf(s, p).(state := RUNNING, reason := NO_REASON) &&
            p in s.nodes && p in t.nodes &&
            t.blocked == s.blocked[0 := s.blocked[0][1..]] && t.finished == s.finished &&
            t.nodes[p] == Node(s.rrQuantum + 4 - Priority(s, p), s.nodes[p].turns)
    ensures var t, p := UnblockWaiters(s, KEYBOARD), s.blocked[0][0];
            match s.current
            case None => t.running == s.running
            case Some(c) =>
              var k := Priority(s, c);
              0 <= k < |s.running| && t.running == s.running[k := [c] + s.running[k]] && c != p &&
              PcbOf(t, c) == PcbOf(s, c).(state := READY, reason := NO_REASON) && NodeOf(t, c) == NodeOf(s, c)
    ensures var t, p := UnblockWaiters(s, KEYBOARD), s.blocked[0][0];
            forall q: Pid :: q != p && s.current != Some(q) ==> Untouched(s, t, q)
  {
    var t, p := UnblockWaiters(s, KEYBOARD), s.blocked[0][0];
    var s1 := s.(blocked := s.blocked[0 := s.blocked[0][1..]]);
    BlockedPop(s, 0);
    InHandIsLoose(s1, p);
    hide WithoutAll;
    if s.current.Some? {
      OutsideTableUnborn(s, s.current.value);
      PriorityInRange(s, s.current.value);
    }
    forall q: Pid | q != p && s.current != Some(q) ensures Untouched(s, t, q) {
    }
  }

  /** Any other wake-up makes the first in line ready, last of its level. */
  lemma WakesFirstInLine(s: Sched, reason: Reason)
    requires Inv(s) && !reason.KEYBOARD? && s.blocked[ReasonIndex(reason)] != []
    ensures var t, k := UnblockWaiters(s, reason), ReasonIndex(reason); var p := s.blocked[k][0];
            PcbOf(t, p) == PcbOf(s, p).(state := READY, reason := NO_REASON) && OnlyTouches(s, t, p) &&
            p in t.nodes && NodeOf(t, p) == NodeOf(s, p) && t.current == s.current &&
            t.blocked == s.blocked[k := s.blocked[k][1..]] && t.finished == s.finished &&
            0 <= Priority(s, p) < |s.running| &&
            t.running == s.running[Priority(s, p) := s.running[Priority(s, p)] + [p]]
  {
    var t, k := UnblockWaiters(s, reason), ReasonIndex(reason);
    var p := s.blocked[k][0];
    var s1 := s.(blocked := s.blocked[k := s.blocked[k][1..]]);
    BlockedPop(s, k);
    InHandIsLoose(s1, p);
    PriorityInRange(s, p);
    forall q | q != p ensures Untouched(s, t, q) {
    }
  }

  // ---------------------------------------------------------------- the line

  /** p is at position i of the line for `reason`. */
  predicate At(s: Sched, reason: Reason, p: Pid, i: nat) {
    var k := ReasonIndex(reason);
    k < |s.blocked| && i < |s.blocked[k]| && s.blocked[k][i] == p
  }

  /** A request about p itself is carried out. */
  predicate Changes(s: Sched, e: Event, p: Pid) {
    e.Change? && e.p == p && Accepts(s, e.caller, p, e.st)
  }

  /** The new place of what was at place i of a line, when p is taken out of it. */
  lemma {:induction false} WithoutAt(q: seq<Pid>, p: Pid, i: nat) returns (j: nat)
    requires i < |q| && q[i] != p
    ensures j <= i && j < |Without(q, p)| && Without(q, p)[j] == q[i]
  {
    if i == 0 {
      j := 0;
    } else {
      j := WithoutAt(q[1..], p, i - 1);
      j := if q[0] == p then j else j + 1;
    }
  }

  /** p in a line after q was taken out of all of them and perhaps put at the end of one. */
  lemma BehindOthers(s: Sched, blocked: Queues, reason: Reason, p: Pid, i: nat, q: Pid, k: int) returns (j: nat)
    requires At(s, reason, p, i) && p != q && |blocked| == |s.blocked|
    requires blocked == AddTail(WithoutAll(s.blocked, q), k, q) || blocked == WithoutAll(s.blocked, q) ||
             blocked == AddTail(s.blocked, k, q) || blocked == s.blocked
    ensures j <= i && j < |blocked[ReasonIndex(reason)]| && blocked[ReasonIndex(reason)][j] == p
  {
    if blocked == AddTail(s.blocked, k, q) || blocked == s.blocked {
      j := i;
    } else {
      j := WithoutAt(s.blocked[ReasonIndex(reason)], q, i);
    }
  }

  lemma TickKeepsLines(s: Sched)
    requires Inv(s)
    ensures Tick(s).blocked == s.blocked
  {
    if !HandleCurrent(s).1 {
      TickPicksFirst(s);
      hide HandleCurrent;
      RetiredKeepsLines(s);
    }
  }

  lemma RetiredKeepsLines(s: Sched)
    requires Inv(s) && !HandleCurrent(s).1
    ensures Retired(s).blocked == s.blocked
  {
  }

  /** What a change of q's state does to the lines. */
  lemma ChangedLines(s: Sched, q: Pid)
    ensures var b := NotifyStateChange(s, q).blocked;
            exists k: int :: b == AddTail(WithoutAll(s.blocked, q), k, q) || b == WithoutAll(s.blocked, q) ||
                             b == AddTail(s.blocked, k, q) || b == s.blocked
  {
    hide WithoutAll;
    var k: int := ReasonIndex(PcbOf(s, q).reason);
    var b := NotifyStateChange(s, q).blocked;
    assert b == AddTail(WithoutAll(s.blocked, q), k, q) || b == WithoutAll(s.blocked, q) ||
           b == AddTail(s.blocked, k, q) || b == s.blocked;
  }

  /** A waiting process moves up with every wake-up of its line, is never overtaken, and leaves the line only
      from the front or by a request about itself. */
  lemma LineMoves(s: Sched, e: Event, reason: Reason, p: Pid, i: nat) returns (j: nat)
    requires Inv(s) && Raises(s, e) && At(s, reason, p, i) && !Changes(s, e, p)
    ensures e == Wake(reason) && i > 0 ==> j == i - 1 && At(Apply(s, e), reason, p, j)
    ensures e != Wake(reason) ==> j <= i && At(Apply(s, e), reason, p, j)
  {
    hide Inv;
    j := i;
    match e
    case Timer => TickKeepsLines(s);
    case Birth(_, _, _, _) =>
    case Add(q) =>
      j := AddKeepsLines(s, q, reason, p, i);
    case Change(caller, q, st, why) =>
      j := ChangeKeepsLines(s, caller, q, st, why, reason, p, i);
    case Prioritize(q, priority, nice) =>
      j := PriorityKeepsLines(s, q, priority, nice, reason, p, i);
    case Wake(other) =>
      if other == reason {
        j := if i > 0 then i - 1 else 0;
      }
      WakeMovesOneLine(s, other);
    case NewQuantum(_) =>
  }

  lemma AddKeepsLines(s: Sched, q: Pid, reason: Reason, p: Pid, i: nat) returns (j: nat)
    requires Inv(s) && At(s, reason, p, i)
    ensures j <= i && At(AddProcess(s, q), reason, p, j)
  {
    assert p in s.blocked[ReasonIndex(reason)];
    assert p in s.nodes by {
      CountInMember(s.blocked, p);
      assert Once(s, None, p);
    }
    j := i;
    if q !in s.nodes {
      j := BehindOthers(s, AddProcess(s, q).blocked, reason, p, i, q, ReasonIndex(PcbOf(s, q).reason));
    }
  }

  lemma ChangeKeepsLines(s: Sched, caller: Pid, q: Pid, st: PState, why: Reason, reason: Reason, p: Pid, i: nat)
    returns (j: nat)
    requires At(s, reason, p, i) && !(q == p && Accepts(s, caller, q, st))
    ensures j <= i && At(SetProcessState(s, caller, q, st, why), reason, p, j)
  {
    j := i;
    if Accepts(s, caller, q, st) {
      hide NotifyStateChange;
      var s0 := SetState(s, q, EffectiveState(PcbOf(s, q), st, why), why);
      ChangedLines(s0, q);
      var b := NotifyStateChange(s0, q).blocked;
      var n: int :| b == AddTail(WithoutAll(s0.blocked, q), n, q) || b == WithoutAll(s0.blocked, q) ||
                    b == AddTail(s0.blocked, n, q) || b == s0.blocked;
      j := BehindOthers(s, b, reason, p, i, q, n);
    }
  }

  lemma WakeMovesOneLine(s: Sched, reason: Reason)
    requires Inv(s)
    ensures var k := ReasonIndex(reason);
            UnblockWaiters(s, reason).blocked ==
            if s.blocked[k] == [] then s.blocked else s.blocked[k := s.blocked[k][1..]]
  {
    var k := ReasonIndex(reason);
    if s.blocked[k] != [] {
      BlockedPop(s, k);
    }
  }

  lemma PriorityKeepsLines(s: Sched, q: Pid, priority: int, nice: bool, reason: Reason, p: Pid, i: nat) returns (j: nat)
    requires Inv(s) && At(s, reason, p, i)
    ensures j <= i && At(SetProcessPriority(s, q, priority, nice), reason, p, j)
  {
    var t := SetProcessPriority(s, q, priority, nice);
    assert p in s.blocked[ReasonIndex(reason)];
    if t.blocked == s.blocked {
      j := i;
    } else {
      if s.current == Some(q) {
        ZombieOrNot(s, q);
      }
      NodeIsQueued(s, q);
      assert t.blocked == WithoutAll(s.blocked, q) && q != p;
      j := BehindOthers(s, t.blocked, reason, p, i, q, 0);
    }
  }

  // ---------------------------------------------------------------- histories

  function Wakes(events: seq<Event>, reason: Reason): nat {
    if events == [] then 0 else (if events[0] == Wake(reason) then 1 else 0) + Wakes(events[1..], reason)
  }

  predicate NeverChanged(s: Sched, events: seq<Event>, p: Pid)
    decreases |events|
  {
    events == [] || (!Changes(s, events[0], p) && NeverChanged(Apply(s, events[0]), events[1..], p))
  }

  /** First come, first woken: a process with i others ahead of it is at the front of its line when one of the
      next i + 1 wake-ups comes, whoever else waits, is killed or is reprioritized in between. */
  lemma {:induction false} FirstComeFirstWoken(s: Sched, events: seq<Event>, reason: Reason, p: Pid, i: nat)
    returns (n: nat)
    requires Inv(s) && Raised(s, events) && NeverChanged(s, events, p) && At(s, reason, p, i)
    requires Wakes(events, reason) > i
    ensures n < |events| && events[n] == Wake(reason) && Wakes(events[..n], reason) <= i
    ensures At(Run(s, events[..n]), reason, p, 0)
    decreases |events|
  {
    var e, rest := events[0], events[1..];
    if e == Wake(reason) && i == 0 {
      n := 0;
    } else {
      var j := LineMoves(s, e, reason, p, i);
      EventKeepsInv(s, e);
      var m := FirstComeFirstWoken(Apply(s, e), rest, reason, p, j);
      n := m + 1;
      assert events[..n][1..] == rest[..m];
    }
  }
}

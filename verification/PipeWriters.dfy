/**
 * The other half of waking up: a writer that waits for room is woken by the reads that make it, in every run
 * with one writer, and exactly then: with two writers the signal of a read can be swallowed.
 */
module PipeWriters {
  import opened PipeRing
  import opened PipeLocks
  import opened PipeProtocol
  import opened PipeSafety

  type Pid = Mutexes.Pid

  /** Inside a read: at least one byte is out, and writeMutex has not been signalled yet. */
  predicate MidRead(proc: Proc) {
    proc.i > 0 && (proc.pc.RLoop? || proc.pc.RWait? || proc.pc.RBack? || proc.pc.RTry?)
  }

  ghost predicate SomeMidRead(s: Sys) {
    exists p :: MidRead(ProcOf(s, p))
  }

  /** Only w writes. */
  ghost predicate OneWriter(s: Sys, w: Pid) {
    forall p :: Writing(PcOf(s, p)) ==> p == w
  }

  /** A read takes no more than it was asked for, so one that has taken something will signal. */
  ghost predicate ReadsBounded(s: Sys) {
    forall p :: TakesAtMost(ProcOf(s, p))
  }

  predicate TakesAtMost(proc: Proc) {
    Reading(proc.pc) && proc.i > 0 ==> proc.i <= proc.size
  }

  /** The writer never sleeps beside free room: neither queued on writeMutex, nor on its way there with the
      mutex still taken, while no read is under way that will signal it. */
  ghost predicate NoLostRoom(s: Sys, w: Pid) {
    s.ring.charsToRead < PIPEBUFFERSIZE && !SomeMidRead(s) ==>
      s.writeMutex.waiting == [] && (PcOf(s, w).WWait? ==> s.writeMutex.value == 0)
  }

  ghost predicate WakesWriter(s: Sys, w: Pid) {
    OneWriter(s, w) && ReadsBounded(s) && NoLostRoom(s, w)
  }

  lemma OnlyWriterQueues(s: Sys, w: Pid)
    requires Locks(s) && OneWriter(s, w)
    ensures s.writeMutex.waiting == [] || s.writeMutex.waiting == [w]
  {
    var q := s.writeMutex.waiting;
    forall p | p in q ensures p == w {
      assert PcOf(s, p).WBack?;
    }
    if |q| >= 2 {
      ElementsAre(q, 0, 1, w);
    } else if |q| == 1 {
      ElementsAre(q, 0, 0, w);
    }
  }

  /** What a step leaves of who writes and how much reads take. */
  lemma StepKeepsCallers(s: Sys, p: Pid, w: Pid)
    requires OneWriter(s, w) && ReadsBounded(s) && Possible(s, Go(p))
    ensures OneWriter(Step(s, p), w) && ReadsBounded(Step(s, p))
  {
    var t := Step(s, p);
    StepMoves(s, p);
    forall q | Writing(PcOf(t, q)) ensures q == w {
      assert q != p ==> PcOf(t, q) == PcOf(s, q);
    }
    forall q ensures TakesAtMost(ProcOf(t, q)) {
      assert TakesAtMost(ProcOf(s, q));
    }
  }

  /** A step that touches neither writeMutex nor the number of bytes and ends no read under way. */
  lemma CalmForWriter(s: Sys, t: Sys, w: Pid, p: Pid)
    requires NoLostRoom(s, w) && t.writeMutex == s.writeMutex && t.ring.charsToRead == s.ring.charsToRead
    requires forall q :: q != p ==> ProcOf(t, q) == ProcOf(s, q)
    requires MidRead(ProcOf(s, p)) ==> MidRead(ProcOf(t, p))
    requires PcOf(t, p).WWait? ==> s.ring.charsToRead >= PIPEBUFFERSIZE || PcOf(s, p).WWait?
    ensures NoLostRoom(t, w)
  {
    if SomeMidRead(s) {
      var q :| MidRead(ProcOf(s, q));
      assert MidRead(ProcOf(t, q));
    }
  }

  /** The signal is never lost, whatever the interleaving. */
  lemma StepLosesNoRoom(s: Sys, p: Pid, w: Pid)
    requires Safe(s) && WakesWriter(s, w) && Possible(s, Go(p))
    ensures WakesWriter(Step(s, p), w)
  {
    StepKeepsCallers(s, p, w);
    var proc := ProcOf(s, p);
    assert TakesAtMost(proc);
    if proc.pc.RLoop? && proc.i >= proc.size && proc.size > 0 {
      ReadSignals(s, p, w);
    } else if proc.pc.WWait? {
      WriterQueues(s, p, w);
    } else if proc.pc.WTry? || (proc.pc.WLoop? && proc.i < |proc.data| && s.ring.charsToRead < PIPEBUFFERSIZE) {
      WriterActs(s, p, w);
    } else if proc.pc.RLoop? && proc.i < proc.size && s.ring.charsToRead != 0 {
      assert MidRead(ProcOf(Step(s, p), p));
    } else {
      OtherStepLosesNoRoom(s, p, w);
    }
  }

  lemma OtherStepLosesNoRoom(s: Sys, p: Pid, w: Pid)
    requires NoLostRoom(s, w) && Possible(s, Go(p)) && TakesAtMost(ProcOf(s, p))
    requires var proc := ProcOf(s, p);
             !proc.pc.WWait? && !proc.pc.WTry? && !(proc.pc.RLoop? && proc.i >= proc.size && proc.size > 0) &&
             !(proc.pc.RLoop? && proc.i < proc.size && s.ring.charsToRead != 0) &&
             !(proc.pc.WLoop? && proc.i < |proc.data| && s.ring.charsToRead < PIPEBUFFERSIZE)
    ensures NoLostRoom(Step(s, p), w)
  {
    CalmForWriter(s, Step(s, p), w, p);
  }

  /** The end of a read wakes a queued writer and opens writeMutex for one on its way. */
  lemma ReadSignals(s: Sys, p: Pid, w: Pid)
    requires Locks(s) && WakesWriter(s, w) && Possible(s, Go(p)) && PcOf(s, p).RLoop?
    requires ProcOf(s, p).i >= ProcOf(s, p).size > 0
    ensures NoLostRoom(Step(s, p), w)
  {
    OnlyWriterQueues(s, w);
    if s.writeMutex.waiting != [] {
      assert w in s.writeMutex.waiting && PcOf(s, w).WBack?;
    }
  }

  /** The writer only queues up when nothing is free or a read is under way. */
  lemma WriterQueues(s: Sys, p: Pid, w: Pid)
    requires Locks(s) && WakesWriter(s, w) && Possible(s, Go(p)) && PcOf(s, p).WWait?
    ensures NoLostRoom(Step(s, p), w)
  {
    var t := Step(s, p);
    assert p == w by {
      assert Writing(PcOf(s, p));
    }
    if SomeMidRead(s) {
      var q :| MidRead(ProcOf(s, q));
      assert MidRead(ProcOf(t, q));
    }
  }

  /** While the writer is inside its section it neither waits nor is about to. */
  lemma WriterActs(s: Sys, p: Pid, w: Pid)
    requires Locks(s) && WakesWriter(s, w) && Possible(s, Go(p)) && (PcOf(s, p).WTry? || PcOf(s, p).WLoop?)
    requires PcOf(s, p).WLoop? ==> ProcOf(s, p).i < |ProcOf(s, p).data| && s.ring.charsToRead < PIPEBUFFERSIZE
    ensures NoLostRoom(Step(s, p), w)
  {
    assert p == w by {
      assert Writing(PcOf(s, p));
    }
    OnlyWriterQueues(s, w);
  }

  // ---------------------------------------------------------------- all runs

  lemma MoveLosesNoRoom(s: Sys, move: Move, w: Pid)
    requires Safe(s) && WakesWriter(s, w) && Possible(s, move) && (move.BeginWrite? ==> move.p == w)
    ensures WakesWriter(Apply(s, move), w)
  {
    var t := Apply(s, move);
    if move.Go? {
      StepLosesNoRoom(s, move.p, w);
    } else {
      CalmForWriter(s, t, w, move.p);
      forall q | Writing(PcOf(t, q)) ensures q == w {
        assert q != move.p ==> PcOf(t, q) == PcOf(s, q);
      }
      forall q ensures TakesAtMost(ProcOf(t, q)) {
        assert TakesAtMost(ProcOf(s, q));
      }
    }
  }

  lemma {:induction false} RunWakesWriter(s: Sys, moves: seq<Move>, w: Pid)
    requires Safe(s) && WakesWriter(s, w) && Moves(s, moves) && OnlyWrites(moves, w)
    ensures WakesWriter(Run(s, moves), w)
    decreases |moves|
  {
    if moves != [] {
      MoveKeepsSafe(s, moves[0]);
      MoveLosesNoRoom(s, moves[0], w);
      RunWakesWriter(Apply(s, moves[0]), moves[1..], w);
    }
  }

  /** In no reachable state of a new pipe with one writer and any number of readers does the writer wait for
      room, or go to wait with writeMutex taken, while there is room and no read that took a byte is under way. */
  lemma RunLosesNoRoom(ring: Ring, n: nat, moves: seq<Move>, w: Pid)
    requires RingOk(ring) && ring.charsToRead == 0 && Moves(Fresh(ring, n), moves) && OnlyWrites(moves, w)
    ensures NoLostRoom(Run(Fresh(ring, n), moves), w)
  {
    FreshIsSafe(ring, n, 0);
    RunWakesWriter(Fresh(ring, n), moves, w);
  }

  // ---------------------------------------------------------------- two writers lose a signal

  /** Only members of `writers` start to write. */
  ghost predicate WrittenBy(moves: seq<Move>, writers: set<Pid>) {
    forall i :: 0 <= i < |moves| && moves[i].BeginWrite? ==> moves[i].p in writers
  }

  /** A writer sleeps beside free room, and no read is under way to wake it. */
  ghost predicate RoomLost(s: Sys) {
    s.writeMutex.waiting != [] && s.ring.charsToRead < PIPEBUFFERSIZE && !SomeMidRead(s)
  }

  /** Some run of n processes in which only `writers` write leaves a writer asleep beside free room. */
  ghost predicate CanLoseRoom(ring: Ring, n: nat, writers: set<Pid>)
    requires RingOk(ring)
  {
    exists moves: seq<Move> ::
      Moves(Fresh(ring, n), moves) && WrittenBy(moves, writers) && RoomLost(Run(Fresh(ring, n), moves))
  }

  /** The run so far, in which only w and b have written. */
  ghost predicate Led(s: Sys, moves: seq<Move>, w: Pid, b: Pid) {
    Moves(s, moves) && WrittenBy(moves, {w, b})
  }

  lemma Then(s: Sys, moves: seq<Move>, move: Move, w: Pid, b: Pid) returns (more: seq<Move>)
    requires Led(s, moves, w, b) && Possible(Run(s, moves), move) && (move.BeginWrite? ==> move.p == w || move.p == b)
    ensures Led(s, more, w, b) && Run(s, more) == Apply(Run(s, moves), move)
    ensures forall q :: q != move.p ==> PcOf(Run(s, more), q) == PcOf(Run(s, moves), q)
    ensures forall q :: q != move.p ==> ProcOf(Run(s, more), q) == ProcOf(Run(s, moves), q)
  {
    Extend(s, moves, move);
    more := moves + [move];
  }

  /** Nobody is inside a section and everybody but w is idle; w is about to wait for room. */
  ghost predicate WriterWaits(s: Sys, w: Pid, b: Pid, word: int, chars: int) {
    w != b && w < |s.procs| && b < |s.procs| && PcOf(s, w) == WWait && (forall q :: q != w ==> PcOf(s, q) == Idle) &&
    s.mutex == Mutexes.Mutex(0, []) && s.writeMutex == Mutexes.Mutex(word, []) && s.readMutex.waiting == [] &&
    RingOk(s.ring) && s.ring.charsToRead == chars
  }

  /** Process p is at `pc` of its section with i bytes moved, o where it is, everybody else idle. */
  ghost predicate Inside(s: Sys, p: Pid, pc: Pc, i: nat, size: nat, o: Pid, word: int, chars: int) {
    p != o && p < |s.procs| && o < |s.procs| && PcOf(s, p) == pc &&
    (forall q :: q != p && q != o ==> PcOf(s, q) == Idle) &&
    ProcOf(s, p).i == i && (if Writing(pc) then |ProcOf(s, p).data| else ProcOf(s, p).size) == size &&
    s.mutex == Mutexes.Mutex(1, []) && s.writeMutex == Mutexes.Mutex(word, []) && s.readMutex.waiting == [] &&
    RingOk(s.ring) && s.ring.charsToRead == chars
  }

  /** A writer with room puts one byte and takes the word of writeMutex. */
  lemma PutsOne(s: Sys, before: seq<Move>, p: Pid, i: nat, size: nat, o: Pid, word: int, chars: int)
    returns (moves: seq<Move>)
    requires Led(s, before, p, o) && Inside(Run(s, before), p, WLoop, i, size, o, word, chars)
    requires i < size && chars < PIPEBUFFERSIZE
    ensures Led(s, moves, p, o) && Inside(Run(s, moves), p, WLoop, i + 1, size, o, 1, chars + 1)
    ensures ProcOf(Run(s, moves), o) == ProcOf(Run(s, before), o)
  {
    hide Moves, Run;
    var t := Run(s, before);
    PutAppends(t.ring, ProcOf(t, p).data[i]);
    moves := Then(s, before, Go(p), p, o);
    moves := Then(s, moves, Go(p), p, o);
  }

  lemma {:induction false} Fills(s: Sys, before: seq<Move>, w: Pid, i: nat, b: Pid) returns (moves: seq<Move>)
    requires Led(s, before, w, b) && i <= PIPEBUFFERSIZE
    requires Inside(Run(s, before), w, WLoop, i, PIPEBUFFERSIZE + 1, b, 1, i) && PcOf(Run(s, before), b) == Idle
    ensures Led(s, moves, w, b)
    ensures Inside(Run(s, moves), w, WLoop, PIPEBUFFERSIZE, PIPEBUFFERSIZE + 1, b, 1, PIPEBUFFERSIZE)
    ensures PcOf(Run(s, moves), b) == Idle
    decreases PIPEBUFFERSIZE - i
  {
    hide Moves, Run;
    moves := before;
    if i < PIPEBUFFERSIZE {
      moves := PutsOne(s, moves, w, i, PIPEBUFFERSIZE + 1, b, 1, i);
      moves := Fills(s, moves, w, i + 1, b);
    }
  }

  /** w fills the pipe and is on its way to wait with one byte left. */
  lemma WriterFindsNoRoom(ring: Ring, n: nat, w: Pid, b: Pid) returns (moves: seq<Move>)
    requires RingOk(ring) && ring.charsToRead == 0 && w < n && b < n && w != b
    ensures Led(Fresh(ring, n), moves, w, b)
    ensures WriterWaits(Run(Fresh(ring, n), moves), w, b, 1, PIPEBUFFERSIZE)
  {
    var s := Fresh(ring, n);
    moves := [];
    moves := Then(s, moves, BeginWrite(w, seq(PIPEBUFFERSIZE + 1, _ => 7)), w, b);
    moves := Then(s, moves, Go(w), w, b);
    moves := Fills(s, moves, w, 0, b);
    hide Moves, Run;
    moves := Then(s, moves, Go(w), w, b);
  }

  lemma TakesOne(s: Sys, before: seq<Move>, p: Pid, i: nat, size: nat, o: Pid, word: int, chars: int)
    returns (moves: seq<Move>)
    requires Led(s, before, o, p) && Inside(Run(s, before), p, RLoop, i, size, o, word, chars)
    requires i < size && chars > 0
    ensures Led(s, moves, o, p) && Inside(Run(s, moves), p, RLoop, i + 1, size, o, word, chars - 1)
    ensures ProcOf(Run(s, moves), o) == ProcOf(Run(s, before), o)
  {
    hide Moves, Run;
    GetTakesOldest(Run(s, before).ring);
    moves := Then(s, before, Go(p), o, p);
    moves := Then(s, moves, Go(p), o, p);
  }

  /** b takes two bytes and signals: writeMutex is open now, for the writer on its way. */
  lemma OtherReadsTwo(s: Sys, before: seq<Move>, w: Pid, b: Pid) returns (moves: seq<Move>)
    requires Led(s, before, w, b) && WriterWaits(Run(s, before), w, b, 1, PIPEBUFFERSIZE)
    ensures Led(s, moves, w, b) && WriterWaits(Run(s, moves), w, b, 0, PIPEBUFFERSIZE - 2)
  {
    hide Moves, Run;
    moves := Then(s, before, BeginRead(b, 2), w, b);
    moves := Then(s, moves, Go(b), w, b);
    moves := TakesOne(s, moves, b, 0, 2, w, 1, PIPEBUFFERSIZE);
    moves := TakesOne(s, moves, b, 1, 2, w, 1, PIPEBUFFERSIZE - 1);
    moves := Then(s, moves, Go(b), w, b);
    moves := Then(s, moves, Go(b), w, b);
  }

  /** b writes one byte: its tryToLockMutex takes the open writeMutex, and it leaves. */
  lemma OtherWritesOne(s: Sys, before: seq<Move>, w: Pid, b: Pid) returns (moves: seq<Move>)
    requires Led(s, before, w, b) && WriterWaits(Run(s, before), w, b, 0, PIPEBUFFERSIZE - 2)
    ensures Led(s, moves, w, b) && WriterWaits(Run(s, moves), w, b, 1, PIPEBUFFERSIZE - 1)
  {
    hide Moves, Run;
    moves := Then(s, before, BeginWrite(b, [7]), w, b);
    moves := Then(s, moves, Go(b), w, b);
    assert WrittenBy(moves, {b, w}) by {
      assert {b, w} == {w, b};
    }
    moves := PutsOne(s, moves, b, 0, 1, w, 0, PIPEBUFFERSIZE - 2);
    assert {b, w} == {w, b};
    MarkIsHarmless(Run(s, moves).ring);
    moves := Then(s, moves, Go(b), w, b);
    moves := Then(s, moves, Go(b), w, b);
    moves := Then(s, moves, Go(b), w, b);
  }

  /** Any two writers can bring a new pipe to a state with one asleep beside free room, for ever if nobody reads. */
  lemma TwoWritersLoseASignal(ring: Ring, n: nat, w: Pid, b: Pid) returns (moves: seq<Move>)
    requires RingOk(ring) && ring.charsToRead == 0 && w < n && b < n && w != b
    ensures Moves(Fresh(ring, n), moves) && WrittenBy(moves, {w, b})
    ensures var t := Run(Fresh(ring, n), moves);
            RoomLost(t) && t.writeMutex.waiting == [w] && forall q :: q != w ==> PcOf(t, q) == Idle
  {
    hide Moves, Run;
    var s := Fresh(ring, n);
    moves := WriterFindsNoRoom(ring, n, w, b);
    moves := OtherReadsTwo(s, moves, w, b);
    moves := OtherWritesOne(s, moves, w, b);
    moves := Then(s, moves, Go(w), w, b);
    forall p ensures !MidRead(ProcOf(Run(s, moves), p)) {
      assert p != w ==> PcOf(Run(s, moves), p) == Idle;
    }
  }

  // ---------------------------------------------------------------- exactly when

  lemma {:induction false} OnlyOneWrites(s: Sys, moves: seq<Move>, writers: set<Pid>, w: Pid)
    requires Moves(s, moves) && WrittenBy(moves, writers)
    requires forall p :: p in writers && p < |s.procs| ==> p == w
    ensures OnlyWrites(moves, w)
    decreases |moves|
  {
    if moves != [] {
      assert moves[0].BeginWrite? ==> moves[0].p in writers;
      forall i | 0 <= i < |moves[1..]| && moves[1..][i].BeginWrite? ensures moves[1..][i].p in writers {
        assert moves[1..][i] == moves[i + 1];
      }
      OnlyOneWrites(Apply(s, moves[0]), moves[1..], writers, w);
      forall i | 0 <= i < |moves| && moves[i].BeginWrite? ensures moves[i].p == w {
        assert i > 0 ==> moves[i] == moves[1..][i - 1];
      }
    }
  }

  /** Room can be lost exactly when two of the processes write, whoever reads. */
  lemma RoomLostIffTwoWriters(ring: Ring, n: nat, writers: set<Pid>)
    requires RingOk(ring) && ring.charsToRead == 0
    ensures CanLoseRoom(ring, n, writers) <==>
            exists w, b :: w in writers && b in writers && w < n && b < n && w != b
  {
    if w, b :| w in writers && b in writers && w < n && b < n && w != b {
      var moves := TwoWritersLoseASignal(ring, n, w, b);
      forall i | 0 <= i < |moves| && moves[i].BeginWrite? ensures moves[i].p in writers {
        assert moves[i].p in {w, b};
      }
      assert Moves(Fresh(ring, n), moves) && WrittenBy(moves, writers) && RoomLost(Run(Fresh(ring, n), moves));
    } else {
      var w: Pid := 0;
      if q :| q in writers && q < n {
        w := q;
      }
      forall moves: seq<Move> | Moves(Fresh(ring, n), moves) && WrittenBy(moves, writers)
        ensures !RoomLost(Run(Fresh(ring, n), moves))
      {
        OnlyOneWrites(Fresh(ring, n), moves, writers, w);
        RunLosesNoRoom(ring, n, moves, w);
      }
    }
  }
}

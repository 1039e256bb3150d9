/**
 * Exactly which sets of readers keep the wake-up theorem: those with at most one process in them. With two
 * of them one can sleep beside waiting bytes while nobody else uses the pipe, because the tryToLockMutex of
 * the other one swallows the signal of the last write.
 */
module PipeReaders {
  import opened PipeRing
  import opened PipeProtocol
  import opened PipeSafety

  type Pid = Mutexes.Pid

  /** Only members of `readers` start to read. */
  ghost predicate ReadBy(moves: seq<Move>, readers: set<Pid>) {
    forall i :: 0 <= i < |moves| && moves[i].BeginRead? ==> moves[i].p in readers
  }

  /** A reader sleeps beside waiting bytes, and no write is under way to wake it. */
  ghost predicate Lost(s: Sys) {
    s.readMutex.waiting != [] && s.ring.charsToRead > 0 && !SomeMidWrite(s)
  }

  /** Some run of n processes in which only `readers` read loses a wake-up. */
  ghost predicate CanLose(ring: Ring, n: nat, readers: set<Pid>)
    requires RingOk(ring)
  {
    exists moves: seq<Move> ::
      Moves(Fresh(ring, n), moves) && ReadBy(moves, readers) && Lost(Run(Fresh(ring, n), moves))
  }

  // ---------------------------------------------------------------- two readers lose one

  /** The run so far, in which only r and b have read. */
  ghost predicate Led(s: Sys, moves: seq<Move>, r: Pid, b: Pid) {
    Moves(s, moves) && ReadBy(moves, {r, b})
  }

  lemma Then(s: Sys, moves: seq<Move>, move: Move, r: Pid, b: Pid) returns (more: seq<Move>)
    requires Led(s, moves, r, b) && Possible(Run(s, moves), move) && (move.BeginRead? ==> move.p == r || move.p == b)
    ensures Led(s, more, r, b) && Run(s, more) == Apply(Run(s, moves), move)
    ensures forall q :: q != move.p ==> PcOf(Run(s, more), q) == PcOf(Run(s, moves), q)
  {
    Extend(s, moves, move);
    if move.Go? {
      StepMoves(Run(s, moves), move.p);
    }
    more := moves + [move];
  }

  /** Nobody is inside a section and everybody but r is idle. */
  ghost predicate Between(s: Sys, r: Pid, b: Pid, pc: Pc, readWord: int, chars: int) {
    r != b && r < |s.procs| && b < |s.procs| && PcOf(s, r) == pc && (forall q :: q != r ==> PcOf(s, q) == Idle) &&
    s.mutex == Mutexes.Mutex(0, []) && s.readMutex == Mutexes.Mutex(readWord, []) && s.writeMutex.waiting == [] &&
    RingOk(s.ring) && s.ring.charsToRead == chars
  }

  /** r finds the pipe empty and is on its way to wait. */
  lemma ReaderFindsNothing(s: Sys, ring: Ring, n: nat, r: Pid, b: Pid) returns (moves: seq<Move>)
    requires s == Fresh(ring, n) && RingOk(ring) && ring.charsToRead == 0 && r < n && b < n && r != b
    ensures Led(s, moves, r, b) && Between(Run(s, moves), r, b, RWait, 1, 0)
  {
    moves := [];
    moves := Then(s, moves, BeginRead(r, 1), r, b);
    moves := Then(s, moves, Go(r), r, b);
    moves := Then(s, moves, Go(r), r, b);
  }

  /** b writes, with i bytes put; r is on its way to wait. */
  ghost predicate AtLoop(s: Sys, r: Pid, b: Pid, i: nat) {
    r != b && r < |s.procs| && b < |s.procs| && PcOf(s, r) == RWait && PcOf(s, b) == WLoop &&
    (forall q :: q != r && q != b ==> PcOf(s, q) == Idle) && ProcOf(s, b).i == i && |ProcOf(s, b).data| == 2 &&
    s.mutex == Mutexes.Mutex(1, []) && s.readMutex == Mutexes.Mutex(1, []) && s.writeMutex.waiting == [] &&
    RingOk(s.ring) && s.ring.charsToRead == i
  }

  lemma WriterPutsOne(s: Sys, before: seq<Move>, r: Pid, b: Pid, i: nat) returns (moves: seq<Move>)
    requires Led(s, before, r, b) && AtLoop(Run(s, before), r, b, i) && i < 2
    ensures Led(s, moves, r, b) && AtLoop(Run(s, moves), r, b, i + 1)
  {
    hide Moves, Run;
    var t := Run(s, before);
    PutAppends(t.ring, ProcOf(t, b).data[i]);
    moves := Then(s, before, Go(b), r, b);
    moves := Then(s, moves, Go(b), r, b);
  }

  lemma WriterPutsBoth(s: Sys, before: seq<Move>, r: Pid, b: Pid) returns (moves: seq<Move>)
    requires Led(s, before, r, b) && Between(Run(s, before), r, b, RWait, 1, 0)
    ensures Led(s, moves, r, b) && AtLoop(Run(s, moves), r, b, 2)
  {
    hide Moves, Run;
    moves := Then(s, before, BeginWrite(b, [7, 7]), r, b);
    moves := Then(s, moves, Go(b), r, b);
    moves := WriterPutsOne(s, moves, r, b, 0);
    moves := WriterPutsOne(s, moves, r, b, 1);
  }

  /** b has put two bytes and signals: readMutex is open now, for the reader on its way. */
  lemma WriterSignals(s: Sys, before: seq<Move>, r: Pid, b: Pid) returns (moves: seq<Move>)
    requires Led(s, before, r, b) && AtLoop(Run(s, before), r, b, 2)
    ensures Led(s, moves, r, b) && Between(Run(s, moves), r, b, RWait, 0, 2)
  {
    hide Moves, Run;
    MarkIsHarmless(Run(s, before).ring);
    moves := Then(s, before, Go(b), r, b);
    moves := Then(s, moves, Go(b), r, b);
    moves := Then(s, moves, Go(b), r, b);
  }

  /** b has read one of the two bytes. */
  ghost predicate AtTry(s: Sys, r: Pid, b: Pid) {
    r != b && r < |s.procs| && b < |s.procs| && PcOf(s, r) == RWait && PcOf(s, b) == RTry &&
    (forall q :: q != r && q != b ==> PcOf(s, q) == Idle) && ProcOf(s, b).i == 1 && ProcOf(s, b).size == 1 &&
    s.mutex == Mutexes.Mutex(1, []) && s.readMutex == Mutexes.Mutex(0, []) && s.writeMutex.waiting == [] &&
    RingOk(s.ring) && s.ring.charsToRead == 1
  }

  lemma OtherReaderTakesOne(s: Sys, before: seq<Move>, r: Pid, b: Pid) returns (moves: seq<Move>)
    requires Led(s, before, r, b) && Between(Run(s, before), r, b, RWait, 0, 2)
    ensures Led(s, moves, r, b) && AtTry(Run(s, moves), r, b)
  {
    hide Moves, Run;
    moves := Then(s, before, BeginRead(b, 1), r, b);
    moves := Then(s, moves, Go(b), r, b);
    GetTakesOldest(Run(s, moves).ring);
    moves := Then(s, moves, Go(b), r, b);
  }

  /** Its tryToLockMutex takes the open readMutex, and it leaves. */
  lemma OtherReaderLeaves(s: Sys, before: seq<Move>, r: Pid, b: Pid) returns (moves: seq<Move>)
    requires Led(s, before, r, b) && AtTry(Run(s, before), r, b)
    ensures Led(s, moves, r, b) && Between(Run(s, moves), r, b, RWait, 1, 1)
  {
    hide Moves, Run;
    moves := Then(s, before, Go(b), r, b);
    moves := Then(s, moves, Go(b), r, b);
    moves := Then(s, moves, Go(b), r, b);
  }

  /** r sleeps beside the other byte, and everybody else has left the pipe. */
  lemma ReaderSleeps(s: Sys, before: seq<Move>, r: Pid, b: Pid) returns (moves: seq<Move>)
    requires Led(s, before, r, b) && Between(Run(s, before), r, b, RWait, 1, 1)
    ensures Led(s, moves, r, b) && Lost(Run(s, moves))
    ensures Run(s, moves).readMutex.waiting == [r] && forall q :: q != r ==> PcOf(Run(s, moves), q) == Idle
  {
    hide Moves, Run;
    moves := Then(s, before, Go(r), r, b);
    NobodyWrites(Run(s, moves), r);
  }

  lemma NobodyWrites(s: Sys, r: Pid)
    requires Reading(PcOf(s, r)) && forall q :: q != r ==> PcOf(s, q) == Idle
    ensures !SomeMidWrite(s)
  {
    forall p ensures !MidWrite(ProcOf(s, p)) {
      assert p != r ==> PcOf(s, p) == Idle;
    }
  }

  /** Two readers, whoever they are and however many processes there are, lose a wake-up. */
  lemma TwoReadersLoseAWakeUp(ring: Ring, n: nat, r: Pid, b: Pid) returns (moves: seq<Move>)
    requires RingOk(ring) && ring.charsToRead == 0 && r < n && b < n && r != b
    ensures Moves(Fresh(ring, n), moves) && ReadBy(moves, {r, b})
    ensures var t := Run(Fresh(ring, n), moves);
            Lost(t) && t.readMutex.waiting == [r] && forall q :: q != r ==> PcOf(t, q) == Idle
  {
    hide Moves, Run, Between, AtLoop, AtTry, Lost, PcOf;
    var s := Fresh(ring, n);
    moves := ReaderFindsNothing(s, ring, n, r, b);
    moves := WriterPutsBoth(s, moves, r, b);
    moves := WriterSignals(s, moves, r, b);
    moves := OtherReaderTakesOne(s, moves, r, b);
    moves := OtherReaderLeaves(s, moves, r, b);
    moves := ReaderSleeps(s, moves, r, b);
  }

  // ---------------------------------------------------------------- one reader loses none

  lemma {:induction false} OnlyOneReads(s: Sys, moves: seq<Move>, readers: set<Pid>, r: Pid)
    requires Moves(s, moves) && ReadBy(moves, readers)
    requires forall p :: p in readers && p < |s.procs| ==> p == r
    ensures OnlyReads(moves, r)
    decreases |moves|
  {
    if moves != [] {
      assert moves[0].BeginRead? ==> moves[0].p in readers;
      forall i | 0 <= i < |moves[1..]| && moves[1..][i].BeginRead? ensures moves[1..][i].p in readers {
        assert moves[1..][i] == moves[i + 1];
      }
      SameProcesses(s, moves[0]);
      OnlyOneReads(Apply(s, moves[0]), moves[1..], readers, r);
      forall i | 0 <= i < |moves| && moves[i].BeginRead? ensures moves[i].p == r {
        assert i > 0 ==> moves[i] == moves[1..][i - 1];
      }
    }
  }

  lemma SameProcesses(s: Sys, move: Move)
    requires Possible(s, move)
    ensures |Apply(s, move).procs| == |s.procs|
  {
  }

  lemma OneReaderLosesNone(ring: Ring, n: nat, readers: set<Pid>, r: Pid, moves: seq<Move>)
    requires RingOk(ring) && ring.charsToRead == 0 && Moves(Fresh(ring, n), moves) && ReadBy(moves, readers)
    requires forall p :: p in readers && p < n ==> p == r
    ensures !Lost(Run(Fresh(ring, n), moves))
  {
    var s := Fresh(ring, n);
    FreshIsSafe(ring, n, r);
    OnlyOneReads(s, moves, readers, r);
    RunLosesNoWakeUp(s, moves, r);
  }

  /** Wake-ups can be lost exactly when two of the processes read. */
  lemma LosesIffTwoReaders(ring: Ring, n: nat, readers: set<Pid>)
    requires RingOk(ring) && ring.charsToRead == 0
    ensures CanLose(ring, n, readers) <==> exists r, b :: r in readers && b in readers && r < n && b < n && r != b
  {
    if r, b :| r in readers && b in readers && r < n && b < n && r != b {
      var moves := TwoReadersLoseAWakeUp(ring, n, r, b);
      forall i | 0 <= i < |moves| && moves[i].BeginRead? ensures moves[i].p in readers {
        assert moves[i].p in {r, b};
      }
      assert Moves(Fresh(ring, n), moves) && ReadBy(moves, readers) && Lost(Run(Fresh(ring, n), moves));
    } else {
      var r: Pid := 0;
      if q :| q in readers && q < n {
        r := q;
      }
      forall moves: seq<Move> | Moves(Fresh(ring, n), moves) && ReadBy(moves, readers)
        ensures !Lost(Run(Fresh(ring, n), moves))
      {
        OneReaderLosesNone(ring, n, readers, r, moves);
      }
    }
  }
}

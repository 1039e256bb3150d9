/**
 * What becomes of a write that finds a reader waiting on an empty pipe, in every run: if it fits into the
 * ring it wakes the reader, and if it does not, writer and reader sleep for ever, because the writer waits
 * for room before it signals.
 */
module PipeDeadlock {
  import opened PipeRing
  import opened PipeProtocol
  import opened PipeSafety

  /** How far the write is: bytes put, before the test or before tryToLockMutex; then asleep, or done. */
  datatype Stage = Putting(i: nat) | Trying(i: nat) | GoingToSleep | Asleep | Signalling | Awake

  /** Two processes: reader 0 is queued on readMutex until it is woken, writer 1 is at the given stage. */
  ghost predicate At(s: Sys, data: seq<int>, stage: Stage) {
    |s.procs| == 2 && PcOf(s, 0) == RBack && ProcOf(s, 1).data == data && RingOk(s.ring) &&
    s.readMutex == Mutexes.Mutex(1, if stage.Awake? then [] else [0]) &&
    match stage
    case Putting(i) => InLoop(s, i) && PcOf(s, 1) == WLoop && i <= |data|
    case Trying(i) => InLoop(s, i) && PcOf(s, 1) == WTry && i <= |data|
    case GoingToSleep => PcOf(s, 1) == WWait && s.mutex == Mutexes.Mutex(0, []) && s.writeMutex == Mutexes.Mutex(1, [])
    case Asleep => PcOf(s, 1) == WBack && s.mutex == Mutexes.Mutex(0, []) && s.writeMutex == Mutexes.Mutex(1, [1])
    case Signalling => InLoop(s, |data|) && PcOf(s, 1) == WSignal
    case Awake => InLoop(s, |data|) && PcOf(s, 1) == WLeave
  }

  ghost predicate InLoop(s: Sys, i: nat) {
    s.mutex == Mutexes.Mutex(1, []) && s.writeMutex == Mutexes.Mutex(1, []) &&
    ProcOf(s, 1).i == i && s.ring.charsToRead == i
  }

  function Next(data: seq<int>, stage: Stage): Stage {
    match stage
    case Putting(i) => if i >= |data| then Signalling else if i >= PIPEBUFFERSIZE then GoingToSleep else Trying(i + 1)
    case Trying(i) => Putting(i)
    case GoingToSleep => Asleep
    case Asleep => Asleep
    case Signalling => Awake
    case Awake => Awake
  }

  /** The bytes that get into the ring before the writer signals or sleeps. */
  function Fitting(data: seq<int>): nat {
    if |data| > PIPEBUFFERSIZE then PIPEBUFFERSIZE else |data|
  }

  /** How many steps the writer is away from sleeping or having signalled. */
  function Left(data: seq<int>, stage: Stage): int {
    match stage
    case Putting(i) => 2 * (Fitting(data) - i) + 2
    case Trying(i) => 2 * (Fitting(data) - i) + 3
    case GoingToSleep => 1
    case Signalling => 1
    case Asleep => 0
    case Awake => 0
  }

  /** Where the writer is after n steps. */
  function After(data: seq<int>, stage: Stage, n: nat): Stage
    decreases n
  {
    if n == 0 then stage else After(data, Next(data, stage), n - 1)
  }

  /** Stages that a write passes through: never more bytes than fit. */
  predicate Sound(data: seq<int>, stage: Stage) {
    match stage
    case Putting(i) => i <= Fitting(data)
    case Trying(i) => i <= Fitting(data)
    case GoingToSleep => |data| > PIPEBUFFERSIZE
    case Asleep => |data| > PIPEBUFFERSIZE
    case Signalling => |data| <= PIPEBUFFERSIZE
    case Awake => |data| <= PIPEBUFFERSIZE
  }

  /** Nothing can happen any more. */
  ghost predicate Deadlocked(s: Sys) {
    forall move :: !Possible(s, move)
  }

  /** Until the writer sleeps or has signalled, it alone can move, and its next stage is the planned one. */
  lemma OnlyTheWriter(s: Sys, data: seq<int>, stage: Stage)
    requires At(s, data, stage) && Sound(data, stage) && !stage.Asleep? && !stage.Awake?
    ensures forall move :: Possible(s, move) <==> move == Go(1)
    ensures At(Apply(s, Go(1)), data, Next(data, stage)) && Sound(data, Next(data, stage))
    ensures Left(data, Next(data, stage)) == Left(data, stage) - 1
  {
    match stage
    case Putting(i) =>
      if i < |data| && i < PIPEBUFFERSIZE {
        PutAppends(s.ring, data[i]);
      } else {
        MarkIsHarmless(s.ring);
      }
    case _ =>
  }

  /** Every run follows the plan, move by move. */
  lemma {:induction false} RunFollowsPlan(s: Sys, data: seq<int>, stage: Stage, moves: seq<Move>)
    requires At(s, data, stage) && Sound(data, stage) && Moves(s, moves) && |moves| <= Left(data, stage)
    ensures forall i :: 0 <= i < |moves| ==> moves[i] == Go(1)
    ensures var last := After(data, stage, |moves|);
            At(Run(s, moves), data, last) && Sound(data, last) && Left(data, last) == Left(data, stage) - |moves|
    decreases |moves|
  {
    if moves != [] {
      OnlyTheWriter(s, data, stage);
      RunFollowsPlan(Apply(s, moves[0]), data, Next(data, stage), moves[1..]);
      forall i | 0 <= i < |moves| ensures moves[i] == Go(1) {
        assert i > 0 ==> moves[i] == moves[1..][i - 1];
      }
    }
  }

  lemma AsleepIsDeadlock(s: Sys, data: seq<int>)
    requires At(s, data, Asleep)
    ensures Deadlocked(s)
  {
  }

  /** The woken reader can go on, and the writer is about to leave with all its bytes in the ring. */
  lemma AwakeGoesOn(s: Sys, data: seq<int>)
    requires At(s, data, Awake)
    ensures !Blocked(s, 0) && Possible(s, Go(0)) && Possible(s, Go(1)) && s.ring.charsToRead == |data|
  {
  }

  /** Deadlock, exactly: after as many steps as it takes the writer to sleep or to signal, which every run
      makes in the same way, nothing can happen any more if and only if the write does not fit. */
  lemma DeadlocksIffTooLong(s: Sys, data: seq<int>, moves: seq<Move>)
    requires At(s, data, Putting(0)) && Moves(s, moves) && |moves| == 2 * Fitting(data) + 2
    ensures Deadlocked(Run(s, moves)) <==> |data| > PIPEBUFFERSIZE
    ensures |data| <= PIPEBUFFERSIZE ==> !Blocked(Run(s, moves), 0) && Run(s, moves).ring.charsToRead == |data|
  {
    RunFollowsPlan(s, data, Putting(0), moves);
    if |data| > PIPEBUFFERSIZE {
      AsleepIsDeadlock(Run(s, moves), data);
    } else {
      AwakeGoesOn(Run(s, moves), data);
    }
  }

  /** Every run can be continued that far, and a write that does not fit has no longer one. */
  lemma {:induction false} RunsThatFar(s: Sys, data: seq<int>, stage: Stage) returns (moves: seq<Move>)
    requires At(s, data, stage) && Sound(data, stage)
    ensures Moves(s, moves) && |moves| == Left(data, stage)
    decreases Left(data, stage)
  {
    if stage.Asleep? || stage.Awake? {
      moves := [];
    } else {
      OnlyTheWriter(s, data, stage);
      var rest := RunsThatFar(Apply(s, Go(1)), data, Next(data, stage));
      moves := [Go(1)] + rest;
      assert moves[1..] == rest;
    }
  }

  lemma {:induction false} NoLongerRun(s: Sys, data: seq<int>, stage: Stage, moves: seq<Move>)
    requires At(s, data, stage) && Sound(data, stage) && |data| > PIPEBUFFERSIZE && Moves(s, moves)
    ensures |moves| <= Left(data, stage)
    decreases |moves|
  {
    if moves != [] {
      if stage.Asleep? {
        AsleepIsDeadlock(s, data);
      } else {
        OnlyTheWriter(s, data, stage);
        NoLongerRun(Apply(s, moves[0]), data, Next(data, stage), moves[1..]);
      }
    }
  }

  // ---------------------------------------------------------------- from a fresh pipe

  lemma ReaderWaits(s: Sys, ring: Ring) returns (moves: seq<Move>)
    requires s == Fresh(ring, 2) && RingOk(ring) && ring.charsToRead == 0
    ensures Moves(s, moves)
    ensures var t := Run(s, moves);
            |t.procs| == 2 && PcOf(t, 0) == RBack && PcOf(t, 1) == Idle && t.mutex == Mutexes.Mutex(0, []) &&
            t.readMutex == Mutexes.Mutex(1, [0]) && t.writeMutex == Mutexes.Mutex(1, []) && t.ring == ring
  {
    moves := [];
    Extend(s, moves, BeginRead(0, 1));
    moves := moves + [BeginRead(0, 1)];
    Extend(s, moves, Go(0));
    moves := moves + [Go(0)];
    Extend(s, moves, Go(0));
    moves := moves + [Go(0)];
    Extend(s, moves, Go(0));
    moves := moves + [Go(0)];
  }

  /** A fresh pipe gets there: a reader waits, and a writer has entered with any data. */
  lemma WriterEnters(ring: Ring, data: seq<int>) returns (moves: seq<Move>)
    requires RingOk(ring) && ring.charsToRead == 0 && |data| > 0
    ensures Moves(Fresh(ring, 2), moves) && At(Run(Fresh(ring, 2), moves), data, Putting(0))
  {
    var s := Fresh(ring, 2);
    moves := ReaderWaits(s, ring);
    hide Fresh, Moves, Run;
    Extend(s, moves, BeginWrite(1, data));
    moves := moves + [BeginWrite(1, data)];
    Extend(s, moves, Go(1));
    moves := moves + [Go(1)];
  }
}

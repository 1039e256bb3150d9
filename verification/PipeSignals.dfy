/**
 * What an open signal means, for any number of readers and writers: an open readMutex that bytes wait, an open
 * writeMutex that there is room, except while the process that changed that has still to close it.
 */
module PipeSignals {
  import opened PipeRing
  import opened PipeLocks
  import opened PipeProtocol
  import opened PipeSafety

  type Pid = Mutexes.Pid

  /** The last byte of a write is in, or the last byte of a read is out, and the call has not signalled yet. */
  predicate AllPut(proc: Proc) {
    (proc.pc.WTry? || proc.pc.WLoop? || proc.pc.WSignal?) && proc.i >= |proc.data|
  }

  predicate AllTaken(proc: Proc) {
    (proc.pc.RTry? || proc.pc.RLoop?) && proc.i >= proc.size > 0
  }

  /** A call about to signal holds the pipe's mutex, and what it will signal is true; one that waits has bytes
      left to move. */
  predicate WillTellTheTruth(s: Sys, p: Pid) {
    var proc := ProcOf(s, p);
    (AllPut(proc) ==> p !in s.mutex.waiting && s.ring.charsToRead > 0) &&
    (AllTaken(proc) ==> p !in s.mutex.waiting && s.ring.charsToRead < PIPEBUFFERSIZE) &&
    (proc.pc.WEnter? || proc.pc.WWait? || proc.pc.WBack? ==> proc.i < |proc.data|) &&
    (proc.pc.RWait? || proc.pc.RBack? ==> proc.i < proc.size) && (proc.pc.REnter? ==> proc.i == 0)
  }

  ghost predicate ReaderWillClose(s: Sys) {
    exists p :: PcOf(s, p).RTry?
  }

  ghost predicate WriterWillClose(s: Sys) {
    exists p :: PcOf(s, p).WTry?
  }

  ghost predicate BytesAreThere(s: Sys) {
    s.readMutex.value == 0 ==> s.ring.charsToRead > 0 || ReaderWillClose(s)
  }

  ghost predicate RoomIsThere(s: Sys) {
    s.writeMutex.value == 0 ==> s.ring.charsToRead < PIPEBUFFERSIZE || WriterWillClose(s)
  }

  ghost predicate SignalsAreTrue(s: Sys) {
    BytesAreThere(s) && RoomIsThere(s)
  }

  ghost predicate Honest(s: Sys) {
    SignalsAreTrue(s) && (forall p :: WillTellTheTruth(s, p)) && forall p :: OwnSignalClosed(s, p)
  }

  /** In the middle of a call its own signal is closed, so that it stops at it when the ring stops it. */
  predicate OwnSignalClosed(s: Sys, p: Pid) {
    var proc := ProcOf(s, p);
    proc.i > 0 ==>
      (proc.pc.RLoop? ==> p !in s.mutex.waiting && s.readMutex.value == 1) &&
      (proc.pc.WLoop? ==> p !in s.mutex.waiting && s.writeMutex.value == 1)
  }

  lemma CallIsOk(s: Sys, p: Pid)
    requires Integrity(s)
    ensures CallOk(ProcOf(s, p))
  {
    assert Accounted(s, p);
  }

  lemma OwnStepTellsTheTruth(s: Sys, p: Pid)
    requires CallOk(ProcOf(s, p)) && WillTellTheTruth(s, p) && Possible(s, Go(p))
    ensures WillTellTheTruth(Step(s, p), p)
  {
  }

  /** A process about to signal owns the mutex, so nobody else moves a byte. */
  lemma OthersStepKeepsItTrue(s: Sys, p: Pid, q: Pid)
    requires OwnerIsInside(s, p) && OwnerIsInside(s, q) && WillTellTheTruth(s, q) && Possible(s, Go(p)) && p != q
    ensures WillTellTheTruth(Step(s, p), q)
  {
    assert ProcOf(Step(s, p), q) == ProcOf(s, q);
  }

  lemma StepTellsTheTruth(s: Sys, p: Pid)
    requires Safe(s) && Honest(s) && Possible(s, Go(p))
    ensures forall q :: WillTellTheTruth(Step(s, p), q)
  {
    hide WillTellTheTruth, Step, OwnerIsInside, Accounted;
    forall q ensures WillTellTheTruth(Step(s, p), q) {
      assert WillTellTheTruth(s, q) && OwnerIsInside(s, p) && OwnerIsInside(s, q);
      if q == p {
        CallIsOk(s, p);
        OwnStepTellsTheTruth(s, p);
      } else {
        OthersStepKeepsItTrue(s, p, q);
      }
    }
  }

  lemma StepKeepsOwnClosed(s: Sys, p: Pid, q: Pid)
    requires OwnerIsInside(s, p) && OwnerIsInside(s, q) && OwnSignalClosed(s, q) && Possible(s, Go(p))
    requires ProcOf(s, p).pc.WEnter? || ProcOf(s, p).pc.REnter? ==> ProcOf(s, p).i == 0
    ensures OwnSignalClosed(Step(s, p), q)
  {
    assert p != q ==> ProcOf(Step(s, p), q) == ProcOf(s, q);
  }

  lemma StepKeepsAllClosed(s: Sys, p: Pid)
    requires Safe(s) && Honest(s) && Possible(s, Go(p))
    ensures forall q :: OwnSignalClosed(Step(s, p), q)
  {
    hide OwnSignalClosed, Step, OwnerIsInside, Accounted;
    CallIsOk(s, p);
    assert WillTellTheTruth(s, p);
    forall q ensures OwnSignalClosed(Step(s, p), q) {
      assert OwnSignalClosed(s, q) && OwnerIsInside(s, p) && OwnerIsInside(s, q);
      StepKeepsOwnClosed(s, p, q);
    }
  }

  lemma StepKeepsBytesThere(s: Sys, p: Pid)
    requires BytesAreThere(s) && CallOk(ProcOf(s, p)) && WillTellTheTruth(s, p) && Possible(s, Go(p))
    ensures BytesAreThere(Step(s, p))
  {
    var t := Step(s, p);
    if ReaderWillClose(s) {
      var q :| PcOf(s, q).RTry?;
      assert q != p ==> PcOf(t, q).RTry?;
    }
    assert PcOf(t, p).RTry? ==> ReaderWillClose(t);
  }

  lemma StepKeepsRoomThere(s: Sys, p: Pid)
    requires RoomIsThere(s) && CallOk(ProcOf(s, p)) && WillTellTheTruth(s, p) && Possible(s, Go(p))
    ensures RoomIsThere(Step(s, p))
  {
    var t := Step(s, p);
    if WriterWillClose(s) {
      var q :| PcOf(s, q).WTry?;
      assert q != p ==> PcOf(t, q).WTry?;
    }
    assert PcOf(t, p).WTry? ==> WriterWillClose(t);
  }

  lemma MoveStaysHonest(s: Sys, move: Move)
    requires Safe(s) && Honest(s) && Possible(s, move)
    ensures Honest(Apply(s, move))
  {
    var t := Apply(s, move);
    if move.Go? {
      StepTellsTheTruth(s, move.p);
      StepKeepsAllClosed(s, move.p);
      CallIsOk(s, move.p);
      StepKeepsBytesThere(s, move.p);
      StepKeepsRoomThere(s, move.p);
    } else {
      forall q ensures WillTellTheTruth(t, q) && OwnSignalClosed(t, q) {
        assert WillTellTheTruth(s, q) && OwnSignalClosed(s, q);
      }
      if ReaderWillClose(s) {
        var q :| PcOf(s, q).RTry?;
        assert PcOf(t, q).RTry?;
      }
      if WriterWillClose(s) {
        var q :| PcOf(s, q).WTry?;
        assert PcOf(t, q).WTry?;
      }
    }
  }

  lemma {:induction false} RunStaysHonest(s: Sys, moves: seq<Move>)
    requires Safe(s) && Honest(s) && Moves(s, moves)
    ensures Honest(Run(s, moves))
    decreases |moves|
  {
    if moves != [] {
      MoveKeepsSafe(s, moves[0]);
      MoveStaysHonest(s, moves[0]);
      RunStaysHonest(Apply(s, moves[0]), moves[1..]);
    }
  }

  /** In every reachable state of a new pipe the signals are true, whoever reads and writes; and a process that
      has moved a byte is back at the head of its loop only with its own signal closed. */
  lemma RunSignalsTheTruth(ring: Ring, n: nat, moves: seq<Move>)
    requires RingOk(ring) && ring.charsToRead == 0 && Moves(Fresh(ring, n), moves)
    ensures SignalsAreTrue(Run(Fresh(ring, n), moves))
    ensures forall p :: OwnSignalClosed(Run(Fresh(ring, n), moves), p)
  {
    FreshIsSafe(ring, n, 0);
    RunStaysHonest(Fresh(ring, n), moves);
  }
}

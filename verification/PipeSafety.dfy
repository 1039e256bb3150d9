/** What holds under every interleaving of readers and writers of one pipe. */
module PipeSafety {
  import opened Options
  import opened Mutexes
  import opened PipeRing
  import opened PipeLocks
  import opened PipeProtocol

  // ---------------------------------------------------------------- integrity

  function Bytes(h: seq<(Pid, int)>): (s: seq<int>)
    ensures |s| == |h|
  {
    seq(|h|, i requires 0 <= i < |h| => h[i].1)
  }

  /** The bytes of the history that p moved. */
  function From(h: seq<(Pid, int)>, p: Pid): seq<int> {
    if h == [] then [] else From(h[..|h| - 1], p) + if h[|h| - 1].0 == p then [h[|h| - 1].1] else []
  }

  /** Everything p has put into the pipe, and everything it has taken out. */
  function Sent(proc: Proc): seq<int>
    requires proc.i <= |proc.data| || !Writing(proc.pc)
  {
    if Writing(proc.pc) then proc.sentBefore + proc.data[..proc.i] else proc.sentBefore
  }

  function Got(proc: Proc): seq<int> {
    if Reading(proc.pc) then proc.gotBefore + proc.out else proc.gotBefore
  }

  /** A call in progress is consistent with how far it says it is. */
  predicate CallOk(proc: Proc) {
    (Writing(proc.pc) ==> proc.i <= |proc.data|) &&
    (proc.pc.WEnter? ==> proc.i == 0) &&
    (proc.pc.WSignal? || proc.pc.WLeave? ==> proc.i == |proc.data| > 0) &&
    (Writing(proc.pc) ==> |proc.data| > 0) &&
    (Reading(proc.pc) ==> |proc.out| == proc.i) &&
    (proc.pc.RLeave? ==> proc.i >= proc.size)
  }

  /** Integrity: what was taken out plus what is buffered is what was put in, in the order of the critical
      sections; and the histories are made of exactly what each process has moved. */
  ghost predicate Integrity(s: Sys) {
    RingOk(s.ring) && Bytes(s.written) == Bytes(s.consumed) + Buffered(s.ring) &&
    forall p :: Accounted(s, p)
  }

  predicate Accounted(s: Sys, p: Pid) {
    CallOk(ProcOf(s, p)) && From(s.written, p) == Sent(ProcOf(s, p)) && From(s.consumed, p) == Got(ProcOf(s, p))
  }

  lemma FromAppend(h: seq<(Pid, int)>, q: Pid, c: int, p: Pid)
    ensures From(h + [(q, c)], p) == From(h, p) + if q == p then [c] else []
  {
    assert (h + [(q, c)])[..|h|] == h;
  }

  lemma PutKeepsIntegrity(s: Sys, p: Pid)
    requires Integrity(s) && p < |s.procs| && PcOf(s, p).WLoop? && ProcOf(s, p).i < |ProcOf(s, p).data|
    requires s.ring.charsToRead < PIPEBUFFERSIZE
    ensures Integrity(PutNext(s, p))
  {
    var proc, t := ProcOf(s, p), PutNext(s, p);
    var c := proc.data[proc.i];
    PutAppends(s.ring, c);
    assert Bytes(t.written) == Bytes(s.written) + [c];
    assert Bytes(s.consumed) + (Buffered(s.ring) + [c]) == Bytes(s.consumed) + Buffered(s.ring) + [c];
    forall q ensures Accounted(t, q) {
      FromAppend(s.written, p, c, q);
      assert Accounted(s, q);
      if q == p {
        assert proc.data[..proc.i + 1] == proc.data[..proc.i] + [c];
      }
    }
  }

  lemma GetKeepsIntegrity(s: Sys, p: Pid)
    requires Integrity(s) && p < |s.procs| && PcOf(s, p).RLoop? && s.ring.charsToRead > 0
    ensures Integrity(GetNext(s, p))
  {
    var t := GetNext(s, p);
    var c := Get(s.ring).1;
    GetTakesOldest(s.ring);
    assert Bytes(t.consumed) == Bytes(s.consumed) + [c];
    assert Bytes(s.consumed) + ([c] + Buffered(t.ring)) == Bytes(s.consumed) + [c] + Buffered(t.ring);
    forall q ensures Accounted(t, q) {
      FromAppend(s.consumed, p, c, q);
      assert Accounted(s, q);
    }
  }

  /** A step that moves no byte: the ring holds the same bytes and p's record accounts for the same ones. */
  lemma OtherKeepsIntegrity(s: Sys, t: Sys, p: Pid)
    requires Integrity(s) && t.written == s.written && t.consumed == s.consumed
    requires RingOk(t.ring) && Buffered(t.ring) == Buffered(s.ring)
    requires forall q :: q != p ==> ProcOf(t, q) == ProcOf(s, q)
    requires Accounted(s, p) && CallOk(ProcOf(t, p))
    requires Sent(ProcOf(t, p)) == Sent(ProcOf(s, p)) && Got(ProcOf(t, p)) == Got(ProcOf(s, p))
    ensures Integrity(t)
  {
    forall q ensures Accounted(t, q) {
      assert Accounted(s, q);
    }
  }

  lemma ReturnAccounts(proc: Proc)
    requires CallOk(proc) && (proc.pc.WLeave? || proc.pc.RLeave?)
    ensures CallOk(Return(proc)) && Sent(Return(proc)) == Sent(proc) && Got(Return(proc)) == Got(proc)
  {
    if proc.pc.WLeave? {
      assert proc.data[..proc.i] == proc.data;
    }
  }

  /** Integrity survives every step of every process. */
  lemma StepKeepsIntegrity(s: Sys, p: Pid)
    requires Integrity(s) && Possible(s, Go(p))
    ensures Integrity(Step(s, p))
  {
    var proc, t := ProcOf(s, p), Step(s, p);
    assert Accounted(s, p);
    if proc.pc.WLoop? && proc.i < |proc.data| && s.ring.charsToRead < PIPEBUFFERSIZE {
      PutKeepsIntegrity(s, p);
    } else if proc.pc.RLoop? && proc.i < proc.size && s.ring.charsToRead != 0 {
      GetKeepsIntegrity(s, p);
    } else {
      MarkIsHarmless(s.ring);
      if proc.pc.WLeave? || proc.pc.RLeave? {
        ReturnAccounts(proc);
      }
      QuietStep(s, p);
      OtherKeepsIntegrity(s, t, p);
    }
  }

  /** What a step that moves no byte changes. */
  lemma QuietStep(s: Sys, p: Pid)
    requires Possible(s, Go(p)) && CallOk(ProcOf(s, p))
    requires var proc := ProcOf(s, p);
             !(proc.pc.WLoop? && proc.i < |proc.data| && s.ring.charsToRead < PIPEBUFFERSIZE) &&
             !(proc.pc.RLoop? && proc.i < proc.size && s.ring.charsToRead != 0)
    ensures var t, proc := Step(s, p), ProcOf(s, p);
            t.written == s.written && t.consumed == s.consumed && (t.ring == s.ring || t.ring == MarkEof(s.ring)) &&
            (forall q :: q != p ==> ProcOf(t, q) == ProcOf(s, q)) &&
            ((ProcOf(t, p) == Return(proc) && (proc.pc.WLeave? || proc.pc.RLeave?)) ||
             (ProcOf(t, p) == proc.(pc := PcOf(t, p)) && CallOk(ProcOf(t, p)) &&
              (Writing(PcOf(t, p)) <==> Writing(proc.pc)) && (Reading(PcOf(t, p)) <==> Reading(proc.pc))))
  {
  }

  // ---------------------------------------------------------------- no lost wake-up

  /** Only r reads. */
  ghost predicate OneReader(s: Sys, r: Pid) {
    forall p :: Reading(PcOf(s, p)) ==> p == r
  }

  /** Inside a write: at least one byte is in, and readMutex has not been signalled yet. */
  predicate MidWrite(proc: Proc) {
    proc.i > 0 && (proc.pc.WLoop? || proc.pc.WWait? || proc.pc.WBack? || proc.pc.WTry? || proc.pc.WSignal?)
  }

  ghost predicate SomeMidWrite(s: Sys) {
    exists p :: MidWrite(ProcOf(s, p))
  }

  /** The reader never sleeps through a completed write: neither queued on readMutex, nor on its way there
      with the mutex still taken, while bytes wait and no write is under way to signal them. */
  ghost predicate NoLostWakeUp(s: Sys, r: Pid) {
    OneReader(s, r) &&
    (s.ring.charsToRead > 0 && !SomeMidWrite(s) ==>
       s.readMutex.waiting == [] && (PcOf(s, r).RWait? ==> s.readMutex.value == 0))
  }

  lemma ElementsAre(w: seq<Pid>, i: nat, j: nat, r: Pid)
    requires i < |w| && j < |w| && forall p :: p in w ==> p == r
    ensures w[i] == r && w[j] == r
  {
    assert w[i] in w && w[j] in w;
  }

  lemma OnlyReaderQueues(s: Sys, r: Pid)
    requires Locks(s) && OneReader(s, r)
    ensures s.readMutex.waiting == [] || s.readMutex.waiting == [r]
  {
    var w := s.readMutex.waiting;
    forall p | p in w ensures p == r {
      assert PcOf(s, p).RBack?;
    }
    if |w| >= 2 {
      ElementsAre(w, 0, 1, r);
    } else if |w| == 1 {
      ElementsAre(w, 0, 0, r);
    }
  }

  /** A step that touches neither readMutex nor the number of bytes and ends no write under way. */
  lemma CalmStep(s: Sys, t: Sys, r: Pid, p: Pid)
    requires NoLostWakeUp(s, r) && t.readMutex == s.readMutex && t.ring.charsToRead == s.ring.charsToRead
    requires forall q :: q != p ==> ProcOf(t, q) == ProcOf(s, q)
    requires MidWrite(ProcOf(s, p)) ==> MidWrite(ProcOf(t, p))
    requires Reading(PcOf(t, p)) ==> p == r
    requires PcOf(t, p).RWait? ==> s.ring.charsToRead == 0 || PcOf(s, p).RWait?
    ensures NoLostWakeUp(t, r)
  {
    if SomeMidWrite(s) {
      var q :| MidWrite(ProcOf(s, q));
      assert MidWrite(ProcOf(t, q));
    }
    forall q | Reading(PcOf(t, q)) ensures q == r {
      assert Reading(PcOf(s, q)) ==> q == r;
    }
  }

  /** The wake-up is never lost, whatever the interleaving. */
  lemma StepLosesNoWakeUp(s: Sys, p: Pid, r: Pid)
    requires Locks(s) && Integrity(s) && NoLostWakeUp(s, r) && Possible(s, Go(p))
    ensures NoLostWakeUp(Step(s, p), r)
  {
    var proc := ProcOf(s, p);
    assert Accounted(s, p);
    if proc.pc.WSignal? {
      SignalWakes(s, p, r);
    } else if proc.pc.RWait? {
      ReaderQueues(s, p, r);
    } else if proc.pc.RTry? || (proc.pc.RLoop? && proc.i < proc.size && s.ring.charsToRead != 0) {
      ReaderActs(s, p, r);
    } else if proc.pc.WLoop? && proc.i < |proc.data| && s.ring.charsToRead < PIPEBUFFERSIZE {
      WriterPuts(s, p, r);
    } else {
      OtherStepLosesNoWakeUp(s, p, r);
    }
  }

  /** A byte that is put belongs to a write under way. */
  lemma WriterPuts(s: Sys, p: Pid, r: Pid)
    requires NoLostWakeUp(s, r) && Possible(s, Go(p)) && PcOf(s, p).WLoop?
    requires ProcOf(s, p).i < |ProcOf(s, p).data| && s.ring.charsToRead < PIPEBUFFERSIZE
    ensures NoLostWakeUp(Step(s, p), r)
  {
    var t := Step(s, p);
    assert MidWrite(ProcOf(t, p));
    OtherReaders(s, t, p, r);
  }

  lemma OtherStepLosesNoWakeUp(s: Sys, p: Pid, r: Pid)
    requires NoLostWakeUp(s, r) && Possible(s, Go(p)) && CallOk(ProcOf(s, p))
    requires var proc := ProcOf(s, p);
             !proc.pc.WSignal? && !proc.pc.RWait? && !proc.pc.RTry? &&
             !(proc.pc.RLoop? && proc.i < proc.size && s.ring.charsToRead != 0) &&
             !(proc.pc.WLoop? && proc.i < |proc.data| && s.ring.charsToRead < PIPEBUFFERSIZE)
    ensures NoLostWakeUp(Step(s, p), r)
  {
    CalmStep(s, Step(s, p), r, p);
  }

  lemma OtherReaders(s: Sys, t: Sys, p: Pid, r: Pid)
    requires OneReader(s, r) && forall q :: q != p ==> ProcOf(t, q) == ProcOf(s, q)
    requires Reading(PcOf(t, p)) ==> p == r
    ensures OneReader(t, r)
  {
    forall q | Reading(PcOf(t, q)) ensures q == r {
      assert Reading(PcOf(s, q)) ==> q == r;
    }
  }

  /** The end of a write wakes a queued reader and opens readMutex for one on its way. */
  lemma SignalWakes(s: Sys, p: Pid, r: Pid)
    requires Locks(s) && NoLostWakeUp(s, r) && Possible(s, Go(p)) && PcOf(s, p).WSignal?
    ensures NoLostWakeUp(Step(s, p), r)
  {
    var t := Step(s, p);
    OnlyReaderQueues(s, r);
    OtherReaders(s, t, p, r);
    if s.readMutex.waiting != [] {
      assert r in s.readMutex.waiting && PcOf(s, r).RBack?;
    }
  }

  /** The reader only queues up when nothing waits or a write is under way. */
  lemma ReaderQueues(s: Sys, p: Pid, r: Pid)
    requires Locks(s) && NoLostWakeUp(s, r) && Possible(s, Go(p)) && PcOf(s, p).RWait?
    ensures NoLostWakeUp(Step(s, p), r)
  {
    var t := Step(s, p);
    assert p == r by {
      assert Reading(PcOf(s, p));
    }
    OtherReaders(s, t, p, r);
    if SomeMidWrite(s) {
      var q :| MidWrite(ProcOf(s, q));
      assert MidWrite(ProcOf(t, q));
    }
  }

  /** While the reader is inside its section it neither waits nor is about to. */
  lemma ReaderActs(s: Sys, p: Pid, r: Pid)
    requires Locks(s) && NoLostWakeUp(s, r) && Possible(s, Go(p)) && (PcOf(s, p).RTry? || PcOf(s, p).RLoop?)
    requires PcOf(s, p).RLoop? ==> ProcOf(s, p).i < ProcOf(s, p).size && s.ring.charsToRead != 0
    ensures NoLostWakeUp(Step(s, p), r)
  {
    var t := Step(s, p);
    assert p == r by {
      assert Reading(PcOf(s, p));
    }
    OnlyReaderQueues(s, r);
    OtherReaders(s, t, p, r);
  }

  // ---------------------------------------------------------------- the end of a write

  /** A write that has put everything leaves the end-of-file mark behind its last byte, if two slots are free. */
  predicate Marked(s: Sys, p: Pid) {
    PcOf(s, p).WSignal? || PcOf(s, p).WLeave? ==>
      p !in s.mutex.waiting &&
      (RingOk(s.ring) && s.ring.charsToRead < PIPEBUFFERSIZE - 1 ==> s.ring.buffer[s.ring.writePos] == EOF)
  }

  ghost predicate EndsMarked(s: Sys) {
    forall p :: Marked(s, p)
  }

  lemma StepKeepsMarks(s: Sys, p: Pid)
    requires Safe(s) && EndsMarked(s) && Possible(s, Go(p))
    ensures EndsMarked(Step(s, p))
  {
    var t := Step(s, p);
    forall q ensures Marked(t, q) {
      assert Marked(s, q) && OwnerIsInside(s, p) && OwnerIsInside(s, q);
      assert q != p ==> PcOf(t, q) == PcOf(s, q);
    }
  }

  lemma {:induction false} RunEndsMarked(s: Sys, moves: seq<Move>)
    requires Safe(s) && EndsMarked(s) && Moves(s, moves)
    ensures EndsMarked(Run(s, moves))
    decreases |moves|
  {
    if moves != [] {
      MoveKeepsSafe(s, moves[0]);
      if moves[0].Go? {
        StepKeepsMarks(s, moves[0].p);
      } else {
        var t := Apply(s, moves[0]);
        forall q ensures Marked(t, q) {
          assert Marked(s, q);
          assert q != moves[0].p ==> PcOf(t, q) == PcOf(s, q);
        }
      }
      RunEndsMarked(Apply(s, moves[0]), moves[1..]);
    }
  }

  // ---------------------------------------------------------------- all runs

  ghost predicate Safe(s: Sys) {
    Locks(s) && Integrity(s)
  }

  /** A fresh pipe (mutex free, both signals taken) and n idle processes. */
  function Fresh(ring: Ring, n: nat): Sys {
    Sys(ring, Mutex(0, []), Mutex(1, []), Mutex(1, []), seq(n, _ => Proc(Idle, [], 0, 0, [], [], [])), None, [], [])
  }

  lemma FreshIsSafe(ring: Ring, n: nat, r: Pid)
    requires RingOk(ring) && ring.charsToRead == 0
    ensures Safe(Fresh(ring, n)) && NoLostWakeUp(Fresh(ring, n), r)
  {
  }

  lemma MoveKeepsSafe(s: Sys, move: Move)
    requires Safe(s) && Possible(s, move)
    ensures Safe(Apply(s, move))
  {
    var t := Apply(s, move);
    match move
    case Go(p) =>
      StepKeepsLocks(s, p);
      StepKeepsIntegrity(s, p);
    case BeginWrite(p, data) => BeginKeepsSafe(s, t, p);
    case BeginRead(p, size) => BeginKeepsSafe(s, t, p);
  }

  lemma BeginKeepsSafe(s: Sys, t: Sys, p: Pid)
    requires Safe(s) && p < |s.procs| && PcOf(s, p).Idle? && (PcOf(t, p).WEnter? || PcOf(t, p).REnter?)
    requires t == WithProc(s, p, ProcOf(t, p)) && CallOk(ProcOf(t, p))
    requires Sent(ProcOf(t, p)) == Sent(ProcOf(s, p)) && Got(ProcOf(t, p)) == Got(ProcOf(s, p))
    ensures Safe(t)
  {
    assert Accounted(s, p);
    OtherKeepsIntegrity(s, t, p);
    forall q: Pid ensures OwnerIsInside(t, q) {
      assert OwnerIsInside(s, q);
    }
  }

  predicate Moves(s: Sys, moves: seq<Move>)
    decreases |moves|
  {
    moves == [] || (Possible(s, moves[0]) && Moves(Apply(s, moves[0]), moves[1..]))
  }

  function Run(s: Sys, moves: seq<Move>): Sys
    requires Moves(s, moves)
    decreases |moves|
  {
    if moves == [] then s else Run(Apply(s, moves[0]), moves[1..])
  }

  /** One more move at the end of a run. */
  lemma {:induction false} Extend(s: Sys, moves: seq<Move>, move: Move)
    requires Moves(s, moves) && Possible(Run(s, moves), move)
    ensures Moves(s, moves + [move]) && Run(s, moves + [move]) == Apply(Run(s, moves), move)
    decreases |moves|
  {
    if moves == [] {
      assert moves + [move] == [move];
    } else {
      Extend(Apply(s, moves[0]), moves[1..], move);
      assert (moves + [move])[1..] == moves[1..] + [move];
    }
  }

  /** Mutual exclusion and integrity in every reachable state, for any number of readers and writers. */
  lemma {:induction false} RunIsSafe(s: Sys, moves: seq<Move>)
    requires Safe(s) && Moves(s, moves)
    ensures Safe(Run(s, moves))
    decreases |moves|
  {
    if moves != [] {
      MoveKeepsSafe(s, moves[0]);
      RunIsSafe(Apply(s, moves[0]), moves[1..]);
    }
  }

  /** Nobody but r starts to read. */
  predicate OnlyReads(moves: seq<Move>, r: Pid) {
    forall i :: 0 <= i < |moves| && moves[i].BeginRead? ==> moves[i].p == r
  }

  /** No lost wake-up in any reachable state with one reader and any number of writers. */
  lemma {:induction false} RunLosesNoWakeUp(s: Sys, moves: seq<Move>, r: Pid)
    requires Safe(s) && NoLostWakeUp(s, r) && Moves(s, moves) && OnlyReads(moves, r)
    ensures NoLostWakeUp(Run(s, moves), r)
    decreases |moves|
  {
    if moves != [] {
      MoveKeepsSafe(s, moves[0]);
      MoveLosesNoWakeUp(s, moves[0], r);
      RunLosesNoWakeUp(Apply(s, moves[0]), moves[1..], r);
    }
  }

  lemma MoveLosesNoWakeUp(s: Sys, move: Move, r: Pid)
    requires Safe(s) && NoLostWakeUp(s, r) && Possible(s, move) && (move.BeginRead? ==> move.p == r)
    ensures NoLostWakeUp(Apply(s, move), r)
  {
    if move.Go? {
      StepLosesNoWakeUp(s, move.p, r);
    } else {
      CalmStep(s, Apply(s, move), r, move.p);
    }
  }

  /** Two processes never both execute inside their sections. */
  lemma RunIsExclusive(s: Sys, moves: seq<Move>, p: Pid, q: Pid)
    requires Safe(s) && Moves(s, moves)
    ensures var t := Run(s, moves);
            InSection(PcOf(t, p)) && InSection(PcOf(t, q)) && !Blocked(t, p) && !Blocked(t, q) ==> p == q
  {
    RunIsSafe(s, moves);
    var t := Run(s, moves);
    if InSection(PcOf(t, p)) && InSection(PcOf(t, q)) && !Blocked(t, p) && !Blocked(t, q) {
      InSectionOwns(t, p);
      InSectionOwns(t, q);
    }
  }

  lemma {:induction false} FromAlone(h: seq<(Pid, int)>, p: Pid)
    requires forall i :: 0 <= i < |h| ==> h[i].0 == p
    ensures From(h, p) == Bytes(h)
  {
    if h != [] {
      FromAlone(h[..|h| - 1], p);
      assert Bytes(h) == Bytes(h[..|h| - 1]) + [h[|h| - 1].1];
    }
  }

  /** Nobody but w starts to write. */
  predicate OnlyWrites(moves: seq<Move>, w: Pid) {
    forall i :: 0 <= i < |moves| && moves[i].BeginWrite? ==> moves[i].p == w
  }

  /** Every byte so far was put by w and taken by r, and nobody else is about to. */
  ghost predicate MovedBy(s: Sys, w: Pid, r: Pid) {
    OneReader(s, r) && (forall p :: Writing(PcOf(s, p)) ==> p == w) &&
    (forall i :: 0 <= i < |s.written| ==> s.written[i].0 == w) &&
    (forall i :: 0 <= i < |s.consumed| ==> s.consumed[i].0 == r)
  }

  /** What a step does to the calls and to the histories. */
  lemma StepMoves(s: Sys, p: Pid)
    requires Possible(s, Go(p))
    ensures var t := Step(s, p);
            (forall q :: q != p ==> PcOf(t, q) == PcOf(s, q)) &&
            (Writing(PcOf(t, p)) ==> Writing(PcOf(s, p))) && (Reading(PcOf(t, p)) ==> Reading(PcOf(s, p))) &&
            (t.written == s.written || (Writing(PcOf(s, p)) && exists c :: t.written == s.written + [(p, c)])) &&
            (t.consumed == s.consumed || (Reading(PcOf(s, p)) && exists c :: t.consumed == s.consumed + [(p, c)]))
  {
    var proc, t := ProcOf(s, p), Step(s, p);
    if proc.pc.WLoop? && proc.i < |proc.data| && s.ring.charsToRead < PIPEBUFFERSIZE {
      assert t.written == s.written + [(p, proc.data[proc.i])];
    } else if proc.pc.RLoop? && proc.i < proc.size && s.ring.charsToRead != 0 {
      assert t.consumed == s.consumed + [(p, Get(s.ring).1)];
    }
  }

  lemma MoveKeepsMovers(s: Sys, move: Move, w: Pid, r: Pid)
    requires MovedBy(s, w, r) && Possible(s, move)
    requires (move.BeginRead? ==> move.p == r) && (move.BeginWrite? ==> move.p == w)
    ensures MovedBy(Apply(s, move), w, r)
  {
    var t := Apply(s, move);
    if move.Go? {
      StepMoves(s, move.p);
    }
    forall p | Reading(PcOf(t, p)) ensures p == r {
      assert p != move.p ==> PcOf(t, p) == PcOf(s, p);
    }
    forall p | Writing(PcOf(t, p)) ensures p == w {
      assert p != move.p ==> PcOf(t, p) == PcOf(s, p);
    }
  }

  lemma {:induction false} RunKeepsMovers(s: Sys, moves: seq<Move>, w: Pid, r: Pid)
    requires MovedBy(s, w, r) && Moves(s, moves) && OnlyWrites(moves, w) && OnlyReads(moves, r)
    ensures MovedBy(Run(s, moves), w, r)
    decreases |moves|
  {
    if moves != [] {
      assert moves[0].BeginRead? ==> moves[0].p == r;
      MoveKeepsMovers(s, moves[0], w, r);
      RunKeepsMovers(Apply(s, moves[0]), moves[1..], w, r);
    }
  }

  /** One writer and one reader on a fresh pipe: what the reader has got is what the writer has sent, up to
      the bytes still in the ring. */
  lemma ReaderGetsWhatWasSent(ring: Ring, n: nat, moves: seq<Move>, w: Pid, r: Pid)
    requires RingOk(ring) && ring.charsToRead == 0 && Moves(Fresh(ring, n), moves)
    requires OnlyWrites(moves, w) && OnlyReads(moves, r)
    ensures var t := Run(Fresh(ring, n), moves);
            CallOk(ProcOf(t, w)) && RingOk(t.ring) && Sent(ProcOf(t, w)) == Got(ProcOf(t, r)) + Buffered(t.ring)
  {
    var s := Fresh(ring, n);
    FreshIsSafe(ring, n, r);
    RunIsSafe(s, moves);
    RunKeepsMovers(s, moves, w, r);
    var t := Run(s, moves);
    FromAlone(t.written, w);
    FromAlone(t.consumed, r);
    assert Accounted(t, w) && Accounted(t, r);
  }
}

/**
 * writePipeK and readPipeK as processes with program counters over one ring and three mutexes. Every
 * lockMutex, unlockMutex and tryToLockMutex call is one step; so is one pass of the code between two of
 * them, which runs under the pipe's mutex. STDIN and STDOUT have their own branches and are not modelled.
 */
module PipeProtocol {
  import opened Options
  import opened Mutexes
  import opened PipeRing

  /** The next thing a process does. Names in W belong to writePipeK, names in R to readPipeK. */
  datatype Pc =
    | Idle
    | WEnter | WLoop | WWait | WBack | WTry | WSignal | WLeave
    | REnter | RLoop | RWait | RBack | RTry | RLeave

  /** A process: its call, how far it is, and what it moved in earlier calls. */
  datatype Proc = Proc(
    pc: Pc, data: seq<int>, size: int, i: nat, out: seq<int>, sentBefore: seq<int>, gotBefore: seq<int>)

  /** The pipe, its processes, who owns `mutex`, and the histories of bytes put and taken, with their movers. */
  datatype Sys = Sys(
    ring: Ring, mutex: Mutex, readMutex: Mutex, writeMutex: Mutex,
    procs: seq<Proc>, owner: Option<Pid>, written: seq<(Pid, int)>, consumed: seq<(Pid, int)>)

  datatype Move = Go(p: Pid) | BeginWrite(p: Pid, data: seq<int>) | BeginRead(p: Pid, size: int)

  predicate Writing(pc: Pc) {
    pc.WEnter? || pc.WLoop? || pc.WWait? || pc.WBack? || pc.WTry? || pc.WSignal? || pc.WLeave?
  }

  predicate Reading(pc: Pc) {
    pc.REnter? || pc.RLoop? || pc.RWait? || pc.RBack? || pc.RTry? || pc.RLeave?
  }

  /** Between a lockMutex(mutex) call and the unlockMutex(mutex) that ends the section. */
  predicate InSection(pc: Pc) {
    pc.WLoop? || pc.WTry? || pc.WSignal? || pc.WLeave? || pc.RLoop? || pc.RTry? || pc.RLeave?
  }

  function ProcOf(s: Sys, p: Pid): Proc {
    if p < |s.procs| then s.procs[p] else Proc(Idle, [], 0, 0, [], [], [])
  }

  function PcOf(s: Sys, p: Pid): Pc {
    ProcOf(s, p).pc
  }

  function WithProc(s: Sys, p: Pid, proc: Proc): Sys {
    if p < |s.procs| then s.(procs := s.procs[p := proc]) else s
  }

  function WithPc(s: Sys, p: Pid, pc: Pc): Sys {
    WithProc(s, p, ProcOf(s, p).(pc := pc))
  }

  predicate Blocked(s: Sys, p: Pid) {
    p in s.mutex.waiting || p in s.readMutex.waiting || p in s.writeMutex.waiting
  }

  // ---------------------------------------------------------------- the steps

  function LockMain(s: Sys, p: Pid): Sys {
    var (m, outcome) := Lock(s.mutex, p);
    s.(mutex := m, owner := if outcome.Acquired? then Some(p) else s.owner)
  }

  function UnlockMain(s: Sys): Sys {
    var (m, woken) := Unlock(s.mutex);
    s.(mutex := m, owner := woken)
  }

  /** buffer[i] goes into the ring. */
  function PutNext(s: Sys, p: Pid): Sys
    requires RingOk(s.ring) && ProcOf(s, p).i < |ProcOf(s, p).data|
  {
    var c := ProcOf(s, p).data[ProcOf(s, p).i];
    WithProc(s, p, ProcOf(s, p).(pc := WTry, i := ProcOf(s, p).i + 1))
    .(ring := Put(s.ring, c), written := s.written + [(p, c)])
  }

  /** The oldest byte of the ring goes into buffer[i]. */
  function GetNext(s: Sys, p: Pid): Sys
    requires RingOk(s.ring)
  {
    var (ring, c) := Get(s.ring);
    WithProc(s, p, ProcOf(s, p).(pc := RTry, i := ProcOf(s, p).i + 1, out := ProcOf(s, p).out + [c]))
    .(ring := ring, consumed := s.consumed + [(p, c)])
  }

  /** A call returns; what it moved is remembered. */
  function Return(proc: Proc): Proc {
    if Writing(proc.pc)
    then proc.(pc := Idle, sentBefore := proc.sentBefore + proc.data, data := [], i := 0)
    else proc.(pc := Idle, gotBefore := proc.gotBefore + proc.out, out := [], i := 0)
  }

  /** The next step of a process that is neither idle nor blocked. */
  function Step(s: Sys, p: Pid): Sys
    requires RingOk(s.ring)
  {
    var proc := ProcOf(s, p);
    match proc.pc
    case Idle => s
    case WEnter => WithPc(LockMain(s, p), p, WLoop)
    case WLoop =>
      if proc.i < |proc.data| then
        if s.ring.charsToRead >= PIPEBUFFERSIZE then WithPc(UnlockMain(s), p, WWait) else PutNext(s, p)
      else WithPc(s, p, WSignal).(ring := MarkEof(s.ring))
    case WWait => WithPc(s, p, WBack).(writeMutex := Lock(s.writeMutex, p).0)
    case WBack => WithPc(LockMain(s, p), p, WTry)
    case WTry => WithPc(s, p, WLoop).(writeMutex := TryLock(s.writeMutex).0)
    case WSignal => WithPc(s, p, WLeave).(readMutex := Unlock(s.readMutex).0)
    case WLeave => WithProc(UnlockMain(s), p, Return(proc))
    case REnter => WithPc(LockMain(s, p), p, RLoop)
    case RLoop =>
      if proc.i < proc.size then
        if s.ring.charsToRead == 0 then WithPc(UnlockMain(s), p, RWait) else GetNext(s, p)
      else WithPc(s, p, RLeave).(writeMutex := if proc.size > 0 then Unlock(s.writeMutex).0 else s.writeMutex)
    case RWait => WithPc(s, p, RBack).(readMutex := Lock(s.readMutex, p).0)
    case RBack => WithPc(LockMain(s, p), p, RTry)
    case RTry => WithPc(s, p, RLoop).(readMutex := TryLock(s.readMutex).0)
    case RLeave => WithProc(UnlockMain(s), p, Return(proc))
  }

  /** A lock call that would find five waiters. */
  predicate QueueFull(m: Mutex) {
    m.value == 1 && |m.waiting| == MAXINQUEUE
  }

  /** What can happen next; waiter queues are assumed not to overflow. */
  predicate Possible(s: Sys, move: Move) {
    match move
    case BeginWrite(p, data) => p < |s.procs| && PcOf(s, p).Idle? && |data| > 0
    case BeginRead(p, _) => p < |s.procs| && PcOf(s, p).Idle?
    case Go(p) =>
      p < |s.procs| && !Blocked(s, p) && RingOk(s.ring) &&
      match PcOf(s, p)
      case WEnter => !QueueFull(s.mutex)
      case WBack => !QueueFull(s.mutex)
      case REnter => !QueueFull(s.mutex)
      case RBack => !QueueFull(s.mutex)
      case WWait => !QueueFull(s.writeMutex)
      case RWait => !QueueFull(s.readMutex)
      case _ => true
  }

  function Apply(s: Sys, move: Move): Sys
    requires Possible(s, move)
  {
    match move
    case Go(p) => Step(s, p)
    case BeginWrite(p, data) => WithProc(s, p, ProcOf(s, p).(pc := WEnter, data := data, size := |data|, i := 0))
    case BeginRead(p, size) => WithProc(s, p, ProcOf(s, p).(pc := REnter, size := size, i := 0, out := []))
  }
}

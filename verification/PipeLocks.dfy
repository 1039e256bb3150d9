/** Mutual exclusion in the pipe protocol: who owns the pipe's mutex, and who stands in which line. */
module PipeLocks {
  import opened Options
  import opened Mutexes
  import opened PipeRing
  import opened PipeProtocol

  ghost predicate Waiters(m: Mutex) {
    (m.value == 0 || m.value == 1) && (m.waiting != [] ==> m.value == 1) && NoRepeats(m.waiting)
  }

  /** p owns `mutex` exactly when it is inside a section and not in line for it. */
  predicate OwnerIsInside(s: Sys, p: Pid) {
    InSection(PcOf(s, p)) && p !in s.mutex.waiting <==> s.owner == Some(p)
  }

  /** `mutex` has at most one owner, the one process inside a section that is not queued; the waiters of
      each mutex stand right behind their lock call. */
  ghost predicate Locks(s: Sys) {
    Waiters(s.mutex) && Waiters(s.readMutex) && Waiters(s.writeMutex) &&
    (s.mutex.value == 1 <==> s.owner.Some?) &&
    (forall p: Pid :: OwnerIsInside(s, p)) &&
    (forall p :: p in s.mutex.waiting ==> InSection(PcOf(s, p))) &&
    (forall p :: p in s.readMutex.waiting ==> PcOf(s, p).RBack?) &&
    (forall p :: p in s.writeMutex.waiting ==> PcOf(s, p).WBack?)
  }

  /** Locking `mutex`: the caller is inside a section afterwards, as owner or in line. */
  lemma LockMainKeepsLocks(s: Sys, p: Pid, pc: Pc)
    requires Locks(s) && p < |s.procs| && !Blocked(s, p) && !InSection(PcOf(s, p)) && InSection(pc)
    requires !QueueFull(s.mutex)
    ensures Locks(WithPc(LockMain(s, p), p, pc))
  {
    var t := WithPc(LockMain(s, p), p, pc);
    forall q: Pid ensures OwnerIsInside(t, q) {
      assert OwnerIsInside(s, q);
    }
  }

  lemma InSectionOfOwner(s: Sys, p: Pid)
    requires Locks(s) && s.owner == Some(p)
    ensures InSection(PcOf(s, p)) && p !in s.mutex.waiting
  {
    assert OwnerIsInside(s, p);
  }

  /** Unlocking `mutex`: the first in line, if any, owns it. */
  lemma UnlockMainKeepsLocks(s: Sys, p: Pid, proc: Proc)
    requires Locks(s) && p < |s.procs| && s.owner == Some(p) && !InSection(proc.pc)
    ensures Locks(WithProc(UnlockMain(s), p, proc))
  {
    var t := WithProc(UnlockMain(s), p, proc);
    InSectionOfOwner(s, p);
    if s.mutex.waiting != [] {
      var next := s.mutex.waiting[0];
      assert s.mutex.waiting == [next] + t.mutex.waiting;
      assert next in s.mutex.waiting && OwnerIsInside(s, next);
    }
    forall q: Pid ensures OwnerIsInside(t, q) {
      assert OwnerIsInside(s, q);
    }
    forall q | q in t.mutex.waiting ensures q in s.mutex.waiting && q != p {
    }
  }

  /** A step of the owner inside its section, whatever it does to the ring. */
  lemma InsideKeepsLocks(s: Sys, t: Sys, p: Pid)
    requires Locks(s) && p < |s.procs| && s.owner == Some(p) && InSection(PcOf(t, p))
    requires t.mutex == s.mutex && t.readMutex == s.readMutex && t.writeMutex == s.writeMutex && t.owner == s.owner
    requires forall q :: q != p ==> PcOf(t, q) == PcOf(s, q)
    ensures Locks(t)
  {
    assert OwnerIsInside(s, p);
    forall q: Pid ensures OwnerIsInside(t, q) {
      assert OwnerIsInside(s, q);
    }
  }

  lemma ReadLockKeepsLocks(s: Sys, p: Pid)
    requires Locks(s) && p < |s.procs| && !Blocked(s, p) && PcOf(s, p).RWait? && !QueueFull(s.readMutex)
    ensures Locks(WithPc(s, p, RBack).(readMutex := Lock(s.readMutex, p).0))
  {
    var t := WithPc(s, p, RBack).(readMutex := Lock(s.readMutex, p).0);
    forall q: Pid ensures OwnerIsInside(t, q) {
      assert OwnerIsInside(s, q);
    }
  }

  lemma WriteLockKeepsLocks(s: Sys, p: Pid)
    requires Locks(s) && p < |s.procs| && !Blocked(s, p) && PcOf(s, p).WWait? && !QueueFull(s.writeMutex)
    ensures Locks(WithPc(s, p, WBack).(writeMutex := Lock(s.writeMutex, p).0))
  {
    var t := WithPc(s, p, WBack).(writeMutex := Lock(s.writeMutex, p).0);
    forall q: Pid ensures OwnerIsInside(t, q) {
      assert OwnerIsInside(s, q);
    }
  }

  /** Signalling readMutex or writeMutex, or taking its word without queueing, from inside the section. */
  lemma SignalKeepsLocks(s: Sys, p: Pid, pc: Pc, r: Mutex, w: Mutex)
    requires Locks(s) && p < |s.procs| && s.owner == Some(p) && InSection(pc)
    requires r == s.readMutex || r == Unlock(s.readMutex).0 || r == TryLock(s.readMutex).0
    requires w == s.writeMutex || w == Unlock(s.writeMutex).0 || w == TryLock(s.writeMutex).0
    ensures Locks(WithPc(s, p, pc).(readMutex := r, writeMutex := w))
  {
    var t := WithPc(s, p, pc);
    InsideKeepsLocks(s, t, p);
    assert forall q :: q in r.waiting ==> q in s.readMutex.waiting;
    assert forall q :: q in w.waiting ==> q in s.writeMutex.waiting;
    SameMain(t, t.(readMutex := r, writeMutex := w));
  }

  lemma SameMain(s: Sys, t: Sys)
    requires Locks(s) && t.mutex == s.mutex && t.owner == s.owner && t.procs == s.procs
    requires Waiters(t.readMutex) && Waiters(t.writeMutex)
    requires forall p :: p in t.readMutex.waiting ==> p in s.readMutex.waiting
    requires forall p :: p in t.writeMutex.waiting ==> p in s.writeMutex.waiting
    ensures Locks(t)
  {
    forall q: Pid ensures OwnerIsInside(t, q) {
      assert OwnerIsInside(s, q);
    }
  }

  lemma InSectionOwns(s: Sys, p: Pid)
    requires Locks(s) && !Blocked(s, p) && InSection(PcOf(s, p))
    ensures s.owner == Some(p) && s.mutex.value == 1
  {
    assert OwnerIsInside(s, p);
  }

  /** Mutual exclusion: every step keeps the locks in order. */
  lemma StepKeepsLocks(s: Sys, p: Pid)
    requires Locks(s) && Possible(s, Go(p))
    ensures Locks(Step(s, p))
  {
    var proc, t := ProcOf(s, p), Step(s, p);
    if InSection(proc.pc) {
      InSectionOwns(s, p);
      SectionStepKeepsLocks(s, p);
    } else {
      match proc.pc
      case Idle =>
      case WEnter => LockMainKeepsLocks(s, p, WLoop);
      case WBack => LockMainKeepsLocks(s, p, WTry);
      case REnter => LockMainKeepsLocks(s, p, RLoop);
      case RBack => LockMainKeepsLocks(s, p, RTry);
      case WWait => WriteLockKeepsLocks(s, p);
      case RWait => ReadLockKeepsLocks(s, p);
    }
  }

  lemma SectionStepKeepsLocks(s: Sys, p: Pid)
    requires Locks(s) && Possible(s, Go(p)) && s.owner == Some(p) && InSection(PcOf(s, p))
    ensures Locks(Step(s, p))
  {
    var proc, t := ProcOf(s, p), Step(s, p);
    match proc.pc
    case WLoop =>
      if proc.i < |proc.data| && s.ring.charsToRead >= PIPEBUFFERSIZE {
        UnlockMainKeepsLocks(s, p, proc.(pc := WWait));
      } else {
        InsideKeepsLocks(s, t, p);
      }
    case WTry => SignalKeepsLocks(s, p, WLoop, s.readMutex, TryLock(s.writeMutex).0);
    case WSignal => SignalKeepsLocks(s, p, WLeave, Unlock(s.readMutex).0, s.writeMutex);
    case WLeave => UnlockMainKeepsLocks(s, p, Return(proc));
    case RLoop =>
      if proc.i < proc.size {
        if s.ring.charsToRead == 0 {
          UnlockMainKeepsLocks(s, p, proc.(pc := RWait));
        } else {
          InsideKeepsLocks(s, t, p);
        }
      } else {
        SignalKeepsLocks(s, p, RLeave, s.readMutex, t.writeMutex);
      }
    case RTry => SignalKeepsLocks(s, p, RLoop, TryLock(s.readMutex).0, s.writeMutex);
    case RLeave => UnlockMainKeepsLocks(s, p, Return(proc));
  }
}

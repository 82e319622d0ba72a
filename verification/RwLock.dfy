/** The AppleTalk library's read-write lock (LibcAT/at_rwlock.c).

    `Lock` holds the counters the mutex protects.  Each critical section of the source is
    one atomic step: from acquiring the mutex to releasing it or to waiting on a
    condition.  `AtRwLock` is the code of the critical sections; `System` is any number
    of threads interleaving them, with spurious wakeups allowed. */
module LockSteps {

  /** The fields of `at_rwlock_t` other than the mutex and the two conditions. */
  datatype Lock = Lock(valid: bool, rActive: int, wActive: int, rWait: int, wWait: int)

  /** How a critical section ends. */
  datatype Verdict = Ok | Busy | Invalid | WaitRead | WaitWrite

  /** What it signals before releasing the mutex. */
  datatype Signal = NoSignal | SignalWrite | BroadcastRead

  datatype Outcome = Outcome(lock: Lock, verdict: Verdict, signal: Signal)

  const INITIAL := Lock(true, 0, 0, 0, 0)

  predicate Owned(l: Lock) {
    l.wActive != 0 || l.rActive > 0
  }

  function ReadLock(l: Lock): Outcome {
    if !l.valid then Outcome(l, Invalid, NoSignal)
    else if l.wActive != 0 then Outcome(l.(rWait := l.rWait + 1), WaitRead, NoSignal)
    else Outcome(l.(rActive := l.rActive + 1), Ok, NoSignal)
  }

  /** A reader back from the condition re-checks, and waits again or takes the lock. */
  function ReadRecheck(l: Lock): Outcome {
    if l.wActive != 0 then Outcome(l, WaitRead, NoSignal)
    else Outcome(l.(rWait := l.rWait - 1, rActive := l.rActive + 1), Ok, NoSignal)
  }

  function ReadTryLock(l: Lock): Outcome {
    if !l.valid then Outcome(l, Invalid, NoSignal)
    else if l.wActive != 0 then Outcome(l, Busy, NoSignal)
    else Outcome(l.(rActive := l.rActive + 1), Ok, NoSignal)
  }

  function ReadUnlock(l: Lock): Outcome {
    if !l.valid then Outcome(l, Invalid, NoSignal)
    else
      var l' := l.(rActive := l.rActive - 1);
      Outcome(l', Ok, if l'.rActive == 0 && l'.wWait > 0 then SignalWrite else NoSignal)
  }

  function WriteLock(l: Lock): Outcome {
    if !l.valid then Outcome(l, Invalid, NoSignal)
    else if Owned(l) then Outcome(l.(wWait := l.wWait + 1), WaitWrite, NoSignal)
    else Outcome(l.(wActive := 1), Ok, NoSignal)
  }

  function WriteRecheck(l: Lock): Outcome {
    if Owned(l) then Outcome(l, WaitWrite, NoSignal)
    else Outcome(l.(wWait := l.wWait - 1, wActive := 1), Ok, NoSignal)
  }

  function WriteTryLock(l: Lock): Outcome {
    if !l.valid then Outcome(l, Invalid, NoSignal)
    else if Owned(l) then Outcome(l, Busy, NoSignal)
    else Outcome(l.(wActive := 1), Ok, NoSignal)
  }

  function WriteUnlock(l: Lock): Outcome {
    if !l.valid then Outcome(l, Invalid, NoSignal)
    else
      var l' := l.(wActive := 0);
      Outcome(l', Ok, if l'.rWait > 0 then BroadcastRead else if l'.wWait > 0 then SignalWrite else NoSignal)
  }

  function Destroy(l: Lock): Outcome {
    if !l.valid then Outcome(l, Invalid, NoSignal)
    else if Owned(l) || l.rWait != 0 || l.wWait != 0 then Outcome(l, Busy, NoSignal)
    else Outcome(l.(valid := false), Ok, NoSignal)
  }
}

/** The code of at_rwlock.c, one method for each critical section. */
module AtRwLockCode {
  import opened LockSteps

  class AtRwLock {
    var valid: bool
    var rActive: int
    var wActive: int
    var rWait: int
    var wWait: int

    ghost function Now(): Lock
      reads this
    {
      Lock(valid, rActive, wActive, rWait, wWait)
    }

    constructor ()
      ensures Now() == INITIAL
    {
      rActive := 0;
      rWait, wWait := 0, 0;
      wActive := 0;
      valid := true;
    }

    /** `at_rwl_readlock` up to its first wait, or to the end. */
    method ReadLock() returns (v: Verdict, s: Signal)
      modifies this
      ensures Outcome(Now(), v, s) == LockSteps.ReadLock(old(Now()))
    {
      s := NoSignal;
      if !valid {
        return Invalid, s;
      }
      if wActive != 0 {
        rWait := rWait + 1;
        return WaitRead, s;
      }
      rActive := rActive + 1;
      v := Ok;
    }

    /** One turn of the wait loop of `at_rwl_readlock`. */
    method ReadRecheck() returns (v: Verdict, s: Signal)
      modifies this
      ensures Outcome(Now(), v, s) == LockSteps.ReadRecheck(old(Now()))
    {
      s := NoSignal;
      if wActive != 0 {
        return WaitRead, s;
      }
      rWait := rWait - 1;
      rActive := rActive + 1;
      v := Ok;
    }

    method ReadTryLock() returns (v: Verdict, s: Signal)
      modifies this
      ensures Outcome(Now(), v, s) == LockSteps.ReadTryLock(old(Now()))
    {
      s := NoSignal;
      if !valid {
        return Invalid, s;
      }
      if wActive != 0 {
        v := Busy;
      } else {
        v := Ok;
        rActive := rActive + 1;
      }
    }

    method ReadUnlock() returns (v: Verdict, s: Signal)
      modifies this
      ensures Outcome(Now(), v, s) == LockSteps.ReadUnlock(old(Now()))
    {
      s := NoSignal;
      if !valid {
        return Invalid, s;
      }
      rActive := rActive - 1;
      if rActive == 0 && wWait > 0 {
        s := SignalWrite;
      }
      v := Ok;
    }

    method WriteLock() returns (v: Verdict, s: Signal)
      modifies this
      ensures Outcome(Now(), v, s) == LockSteps.WriteLock(old(Now()))
    {
      s := NoSignal;
      if !valid {
        return Invalid, s;
      }
      if wActive != 0 || rActive > 0 {
        wWait := wWait + 1;
        return WaitWrite, s;
      }
      wActive := 1;
      v := Ok;
    }

    /** One turn of the wait loop of `at_rwl_writelock`. */
    method WriteRecheck() returns (v: Verdict, s: Signal)
      modifies this
      ensures Outcome(Now(), v, s) == LockSteps.WriteRecheck(old(Now()))
    {
      s := NoSignal;
      if wActive != 0 || rActive > 0 {
        return WaitWrite, s;
      }
      wWait := wWait - 1;
      wActive := 1;
      v := Ok;
    }

    method WriteTryLock() returns (v: Verdict, s: Signal)
      modifies this
      ensures Outcome(Now(), v, s) == LockSteps.WriteTryLock(old(Now()))
    {
      s := NoSignal;
      if !valid {
        return Invalid, s;
      }
      if wActive != 0 || rActive > 0 {
        v := Busy;
      } else {
        v := Ok;
        wActive := 1;
      }
    }

    method WriteUnlock() returns (v: Verdict, s: Signal)
      modifies this
      ensures Outcome(Now(), v, s) == LockSteps.WriteUnlock(old(Now()))
    {
      s := NoSignal;
      if !valid {
        return Invalid, s;
      }
      wActive := 0;
      if rWait > 0 {
        s := BroadcastRead;
      } else if wWait > 0 {
        s := SignalWrite;
      }
      v := Ok;
    }

    method Destroy() returns (v: Verdict, s: Signal)
      modifies this
      ensures Outcome(Now(), v, s) == LockSteps.Destroy(old(Now()))
    {
      s := NoSignal;
      if !valid {
        return Invalid, s;
      }
      if rActive > 0 || wActive != 0 {
        return Busy, s;
      }
      if rWait != 0 || wWait != 0 {
        return Busy, s;
      }
      valid := false;
      v := Ok;
    }
  }
}

/** Any number of threads sharing one lock. */
module RwLock {
  import opened LockSteps

  /** What a thread is doing with the lock: outside any call, asleep on a condition, or
      awake again inside a call and about to re-check. */
  datatype Mode = Outside | ReadAsleep | ReadAwake | WriteAsleep | WriteAwake

  /** `readLocks` and `writeLocks` count the locks the thread has been granted and not given back. */
  datatype Thread = Thread(mode: Mode, readLocks: nat, writeLocks: nat)

  datatype System = System(lock: Lock, threads: seq<Thread>)

  datatype Step =
    | CallReadLock(t: nat) | RecheckRead(t: nat) | CallReadTry(t: nat) | CallReadUnlock(t: nat)
    | CallWriteLock(t: nat) | RecheckWrite(t: nat) | CallWriteTry(t: nat) | CallWriteUnlock(t: nat)
    | CallDestroy(t: nat)
    | WakeSpuriously(t: nat)

  // ---------- counting ----------

  function Sum(ts: seq<Thread>, f: Thread -> nat): nat {
    if ts == [] then 0 else Sum(ts[..|ts| - 1], f) + f(ts[|ts| - 1])
  }

  const READS: Thread -> nat := (t: Thread) => t.readLocks
  const WRITES: Thread -> nat := (t: Thread) => t.writeLocks
  const READ_WAITERS: Thread -> nat := (t: Thread) => if t.mode.ReadAsleep? || t.mode.ReadAwake? then 1 else 0
  const WRITE_WAITERS: Thread -> nat := (t: Thread) => if t.mode.WriteAsleep? || t.mode.WriteAwake? then 1 else 0

  lemma {:induction false} SumUpdate(ts: seq<Thread>, f: Thread -> nat, i: nat, x: Thread)
    requires i < |ts|
    ensures Sum(ts[i := x], f) == Sum(ts, f) - f(ts[i]) + f(x)
    ensures f(ts[i]) <= Sum(ts, f)
    decreases |ts|
  {
    var n := |ts| - 1;
    if i < n {
      assert ts[i := x][..n] == ts[..n][i := x];
      SumUpdate(ts[..n], f, i, x);
    } else {
      assert ts[i := x][..n] == ts[..n];
    }
  }

  lemma {:induction false} SumSame(ts: seq<Thread>, us: seq<Thread>, f: Thread -> nat)
    requires |ts| == |us| && forall i :: 0 <= i < |ts| ==> f(ts[i]) == f(us[i])
    ensures Sum(ts, f) == Sum(us, f)
    decreases |ts|
  {
    if ts != [] {
      SumSame(ts[..|ts| - 1], us[..|us| - 1], f);
    }
  }

  /** A positive sum has a positive term. */
  lemma {:induction false} SumWitness(ts: seq<Thread>, f: Thread -> nat) returns (i: nat)
    requires Sum(ts, f) > 0
    ensures i < |ts| && f(ts[i]) > 0
    decreases |ts|
  {
    var n := |ts| - 1;
    if f(ts[n]) > 0 { i := n; } else { i := SumWitness(ts[..n], f); }
  }

  // ---------- steps ----------

  /** The effect of a signal on the sleeping threads.  `condition_signal` wakes at least
      one of them if there is any, `condition_broadcast` all of them. */
  ghost predicate Delivered(s: Signal, ts: seq<Thread>, us: seq<Thread>) {
    && |us| == |ts|
    && match s
       case NoSignal => us == ts
       case BroadcastRead =>
         forall i :: 0 <= i < |ts| ==>
           us[i] == if ts[i].mode.ReadAsleep? then ts[i].(mode := ReadAwake) else ts[i]
       case SignalWrite =>
         && (forall i :: 0 <= i < |ts| ==>
               us[i] == ts[i] || (ts[i].mode.WriteAsleep? && us[i] == ts[i].(mode := WriteAwake)))
         && ((exists i :: 0 <= i < |ts| && ts[i].mode.WriteAsleep?) ==>
             exists i :: 0 <= i < |ts| && ts[i].mode.WriteAsleep? && us[i].mode.WriteAwake?)
  }

  /** Thread t leaves a critical section as thread `me`, with the given outcome. */
  ghost predicate Finishes(a: System, b: System, t: nat, o: Outcome, me: Thread) {
    t < |a.threads| && b.lock == o.lock && Delivered(o.signal, a.threads[t := me], b.threads)
  }

  /** The mode a thread is in after a section that may wait. */
  function Left(v: Verdict): Mode {
    match v
    case WaitRead => ReadAsleep
    case WaitWrite => WriteAsleep
    case _ => Outside
  }

  /** One atomic step.  Threads give back only what they hold. */
  ghost predicate Next(a: System, b: System, step: Step) {
    step.t < |a.threads| &&
    var me := a.threads[step.t];
    match step
    case CallReadLock(t) => me.mode.Outside? &&
      var o := ReadLock(a.lock);
      Finishes(a, b, t, o, me.(mode := Left(o.verdict), readLocks := me.readLocks + if o.verdict.Ok? then 1 else 0))
    case RecheckRead(t) => me.mode.ReadAwake? &&
      var o := ReadRecheck(a.lock);
      Finishes(a, b, t, o, me.(mode := Left(o.verdict), readLocks := me.readLocks + if o.verdict.Ok? then 1 else 0))
    case CallReadTry(t) => me.mode.Outside? &&
      var o := ReadTryLock(a.lock);
      Finishes(a, b, t, o, me.(readLocks := me.readLocks + if o.verdict.Ok? then 1 else 0))
    case CallReadUnlock(t) => me.mode.Outside? && me.readLocks > 0 &&
      var o := ReadUnlock(a.lock);
      Finishes(a, b, t, o, if o.verdict.Ok? then me.(readLocks := me.readLocks - 1) else me)
    case CallWriteLock(t) => me.mode.Outside? &&
      var o := WriteLock(a.lock);
      Finishes(a, b, t, o, me.(mode := Left(o.verdict), writeLocks := me.writeLocks + if o.verdict.Ok? then 1 else 0))
    case RecheckWrite(t) => me.mode.WriteAwake? &&
      var o := WriteRecheck(a.lock);
      Finishes(a, b, t, o, me.(mode := Left(o.verdict), writeLocks := me.writeLocks + if o.verdict.Ok? then 1 else 0))
    case CallWriteTry(t) => me.mode.Outside? &&
      var o := WriteTryLock(a.lock);
      Finishes(a, b, t, o, me.(writeLocks := me.writeLocks + if o.verdict.Ok? then 1 else 0))
    case CallWriteUnlock(t) => me.mode.Outside? && me.writeLocks > 0 &&
      var o := WriteUnlock(a.lock);
      Finishes(a, b, t, o, if o.verdict.Ok? then me.(writeLocks := me.writeLocks - 1) else me)
    case CallDestroy(t) => me.mode.Outside? && Finishes(a, b, t, Destroy(a.lock), me)
    case WakeSpuriously(t) =>
      b.lock == a.lock &&
      ((me.mode.ReadAsleep? && b.threads == a.threads[t := me.(mode := ReadAwake)])
       || (me.mode.WriteAsleep? && b.threads == a.threads[t := me.(mode := WriteAwake)]))
  }

  ghost predicate Init(s: System) {
    s.lock == INITIAL && forall i :: 0 <= i < |s.threads| ==> s.threads[i] == Thread(Outside, 0, 0)
  }

  ghost predicate Trace(states: seq<System>, steps: seq<Step>) {
    && |states| == |steps| + 1 && Init(states[0])
    && forall i :: 0 <= i < |steps| ==> Next(states[i], states[i + 1], steps[i])
  }

  // ---------- the invariants ----------

  /** The counters count what is really there. */
  ghost predicate Counted(s: System) {
    && s.lock.rActive == Sum(s.threads, READS)
    && s.lock.wActive == Sum(s.threads, WRITES)
    && s.lock.rWait == Sum(s.threads, READ_WAITERS)
    && s.lock.wWait == Sum(s.threads, WRITE_WAITERS)
  }

  /** A writer excludes readers and other writers. */
  ghost predicate Exclusive(s: System) {
    s.lock.wActive <= 1 && (s.lock.wActive == 1 ==> s.lock.rActive == 0)
  }

  ghost predicate Somebody(s: System, m: Mode) {
    exists i :: 0 <= i < |s.threads| && s.threads[i].mode == m
  }

  /** No wakeup is lost: sleeping readers wait for an active writer; sleeping writers wait
      for an owner, or for a thread that is awake and about to re-check. */
  ghost predicate NothingLost(s: System) {
    && (Somebody(s, ReadAsleep) ==> s.lock.wActive > 0)
    && (Somebody(s, WriteAsleep) ==> Owned(s.lock) || Somebody(s, ReadAwake) || Somebody(s, WriteAwake))
  }

  /** A destroyed lock was and stays unused. */
  ghost predicate DeadIsIdle(s: System) {
    !s.lock.valid ==> s.lock.rActive == 0 && s.lock.wActive == 0 && s.lock.rWait == 0 && s.lock.wWait == 0
  }

  ghost predicate Inv(s: System) {
    Counted(s) && Exclusive(s) && NothingLost(s) && DeadIsIdle(s)
  }

  // ---------- how a step changes the counts ----------

  lemma ChangeOne(ts: seq<Thread>, t: nat, me: Thread)
    requires t < |ts|
    ensures Sum(ts[t := me], READS) == Sum(ts, READS) - ts[t].readLocks + me.readLocks
    ensures Sum(ts[t := me], WRITES) == Sum(ts, WRITES) - ts[t].writeLocks + me.writeLocks
    ensures Sum(ts[t := me], READ_WAITERS) == Sum(ts, READ_WAITERS) - READ_WAITERS(ts[t]) + READ_WAITERS(me)
    ensures Sum(ts[t := me], WRITE_WAITERS) == Sum(ts, WRITE_WAITERS) - WRITE_WAITERS(ts[t]) + WRITE_WAITERS(me)
    ensures ts[t].readLocks <= Sum(ts, READS) && ts[t].writeLocks <= Sum(ts, WRITES)
    ensures READ_WAITERS(ts[t]) <= Sum(ts, READ_WAITERS) && WRITE_WAITERS(ts[t]) <= Sum(ts, WRITE_WAITERS)
  {
    SumUpdate(ts, READS, t, me);
    SumUpdate(ts, WRITES, t, me);
    SumUpdate(ts, READ_WAITERS, t, me);
    SumUpdate(ts, WRITE_WAITERS, t, me);
  }

  /** Waking threads changes no count. */
  lemma DeliveryKeepsCounts(s: Signal, ts: seq<Thread>, us: seq<Thread>)
    requires Delivered(s, ts, us)
    ensures Sum(us, READS) == Sum(ts, READS) && Sum(us, WRITES) == Sum(ts, WRITES)
    ensures Sum(us, READ_WAITERS) == Sum(ts, READ_WAITERS) && Sum(us, WRITE_WAITERS) == Sum(ts, WRITE_WAITERS)
  {
    SumSame(ts, us, READS);
    SumSame(ts, us, WRITES);
    SumSame(ts, us, READ_WAITERS);
    SumSame(ts, us, WRITE_WAITERS);
  }

  lemma FinishCounts(a: System, b: System, t: nat, o: Outcome, me: Thread)
    requires Finishes(a, b, t, o, me)
    ensures Sum(b.threads, READS) == Sum(a.threads, READS) - a.threads[t].readLocks + me.readLocks
    ensures Sum(b.threads, WRITES) == Sum(a.threads, WRITES) - a.threads[t].writeLocks + me.writeLocks
    ensures Sum(b.threads, READ_WAITERS) == Sum(a.threads, READ_WAITERS) - READ_WAITERS(a.threads[t]) + READ_WAITERS(me)
    ensures Sum(b.threads, WRITE_WAITERS) == Sum(a.threads, WRITE_WAITERS) - WRITE_WAITERS(a.threads[t]) + WRITE_WAITERS(me)
    ensures a.threads[t].readLocks <= Sum(a.threads, READS) && a.threads[t].writeLocks <= Sum(a.threads, WRITES)
    ensures READ_WAITERS(a.threads[t]) <= Sum(a.threads, READ_WAITERS) && WRITE_WAITERS(a.threads[t]) <= Sum(a.threads, WRITE_WAITERS)
  {
    hide Delivered;
    ChangeOne(a.threads, t, me);
    DeliveryKeepsCounts(o.signal, a.threads[t := me], b.threads);
  }

  /** Counts, exclusion and the idleness of a destroyed lock survive every step. */
  lemma StepKeepsCounts(a: System, b: System, step: Step)
    requires Inv(a) && Next(a, b, step)
    ensures Counted(b) && Exclusive(b) && DeadIsIdle(b)
  {
    hide Delivered, Sum, NothingLost;
    var t := step.t;
    var me := a.threads[t];
    match step
    case CallReadLock(_) =>
      var o := ReadLock(a.lock);
      FinishCounts(a, b, t, o, me.(mode := Left(o.verdict), readLocks := me.readLocks + if o.verdict.Ok? then 1 else 0));
    case RecheckRead(_) =>
      var o := ReadRecheck(a.lock);
      FinishCounts(a, b, t, o, me.(mode := Left(o.verdict), readLocks := me.readLocks + if o.verdict.Ok? then 1 else 0));
    case CallReadTry(_) =>
      var o := ReadTryLock(a.lock);
      FinishCounts(a, b, t, o, me.(readLocks := me.readLocks + if o.verdict.Ok? then 1 else 0));
    case CallReadUnlock(_) =>
      var o := ReadUnlock(a.lock);
      FinishCounts(a, b, t, o, if o.verdict.Ok? then me.(readLocks := me.readLocks - 1) else me);
    case CallWriteLock(_) =>
      var o := WriteLock(a.lock);
      FinishCounts(a, b, t, o, me.(mode := Left(o.verdict), writeLocks := me.writeLocks + if o.verdict.Ok? then 1 else 0));
    case RecheckWrite(_) =>
      var o := WriteRecheck(a.lock);
      FinishCounts(a, b, t, o, me.(mode := Left(o.verdict), writeLocks := me.writeLocks + if o.verdict.Ok? then 1 else 0));
    case CallWriteTry(_) =>
      var o := WriteTryLock(a.lock);
      FinishCounts(a, b, t, o, me.(writeLocks := me.writeLocks + if o.verdict.Ok? then 1 else 0));
    case CallWriteUnlock(_) =>
      var o := WriteUnlock(a.lock);
      FinishCounts(a, b, t, o, if o.verdict.Ok? then me.(writeLocks := me.writeLocks - 1) else me);
    case CallDestroy(_) =>
      FinishCounts(a, b, t, Destroy(a.lock), me);
    case WakeSpuriously(_) =>
      ChangeOne(a.threads, t, b.threads[t]);
  }

  // ---------- no lost wakeups ----------

  /** A waiter that is not asleep is awake. */
  lemma AwakeReader(s: System)
    requires Counted(s) && s.lock.rWait > 0
    ensures Somebody(s, ReadAsleep) || Somebody(s, ReadAwake)
  {
    var i := SumWitness(s.threads, READ_WAITERS);
    assert s.threads[i].mode == ReadAsleep || s.threads[i].mode == ReadAwake;
  }

  lemma AwakeWriter(s: System)
    requires Counted(s) && s.lock.wWait > 0
    ensures Somebody(s, WriteAsleep) || Somebody(s, WriteAwake)
  {
    var i := SumWitness(s.threads, WRITE_WAITERS);
    assert s.threads[i].mode == WriteAsleep || s.threads[i].mode == WriteAwake;
  }

  /** Somebody asleep on the write condition is counted. */
  lemma AsleepIsCounted(s: System)
    requires Counted(s)
    ensures Somebody(s, WriteAsleep) ==> s.lock.wWait > 0
    ensures Somebody(s, ReadAsleep) ==> s.lock.rWait > 0
  {
    if i :| 0 <= i < |s.threads| && s.threads[i].mode == WriteAsleep {
      SumUpdate(s.threads, WRITE_WAITERS, i, s.threads[i]);
    }
    if i :| 0 <= i < |s.threads| && s.threads[i].mode == ReadAsleep {
      SumUpdate(s.threads, READ_WAITERS, i, s.threads[i]);
    }
  }

  lemma SignalWakesWriter(ts: seq<Thread>, b: System)
    requires Delivered(SignalWrite, ts, b.threads) && Somebody(b, WriteAsleep)
    ensures Somebody(b, WriteAwake)
  {
    var i :| 0 <= i < |b.threads| && b.threads[i].mode == WriteAsleep;
    assert ts[i].mode.WriteAsleep?;
    var j :| 0 <= j < |ts| && ts[j].mode.WriteAsleep? && b.threads[j].mode.WriteAwake?;
    assert b.threads[j].mode == WriteAwake;
  }

  lemma BroadcastWakesReader(a: System, t: nat, me: Thread, b: System)
    requires t < |a.threads| && Delivered(BroadcastRead, a.threads[t := me], b.threads)
    requires a.threads[t].mode.Outside? && Counted(a) && a.lock.rWait > 0
    ensures Somebody(b, ReadAwake)
  {
    AwakeReader(a);
    var i :| 0 <= i < |a.threads| && (a.threads[i].mode == ReadAsleep || a.threads[i].mode == ReadAwake);
    assert a.threads[t := me][i] == a.threads[i];
    assert b.threads[i].mode == ReadAwake;
  }

  /** A sleeping reader still waits for an active writer after any step. */
  lemma ReadersNotLost(a: System, b: System, step: Step)
    requires Inv(a) && Next(a, b, step)
    ensures Somebody(b, ReadAsleep) ==> b.lock.wActive > 0
  {
    if i :| 0 <= i < |b.threads| && b.threads[i].mode == ReadAsleep {
      StepKeepsCounts(a, b, step);
      AsleepIsCounted(b);
      if i != step.t {
        assert a.threads[i].mode == ReadAsleep;
      }
    }
  }

  /** The same for unlocking steps and sleeping writers: the unlock that frees the lock
      wakes somebody. */
  lemma UnlockWakesSomebody(a: System, b: System, step: Step)
    requires Inv(a) && Next(a, b, step) && (step.CallReadUnlock? || step.CallWriteUnlock?)
    requires Somebody(b, WriteAsleep) && !Owned(b.lock)
    ensures Somebody(b, ReadAwake) || Somebody(b, WriteAwake)
  {
    StepKeepsCounts(a, b, step);
    AsleepIsCounted(b);
    hide Delivered, Sum;
    var t := step.t;
    var me := a.threads[t];
    ChangeOne(a.threads, t, me);
    if step.CallReadUnlock? {
      assert a.lock.valid;
      SignalWakesWriter(a.threads[t := me.(readLocks := me.readLocks - 1)], b);
    } else {
      assert a.lock.valid;
      var me' := me.(writeLocks := me.writeLocks - 1);
      if a.lock.rWait > 0 {
        BroadcastWakesReader(a, t, me', b);
      } else {
        SignalWakesWriter(a.threads[t := me'], b);
      }
    }
  }

  /** Steps that neither unlock nor destroy leave a free lock as free as it was, and
      everybody who was awake still awake. */
  lemma OtherStepsLoseNoWriter(a: System, b: System, step: Step)
    requires Inv(a) && Next(a, b, step) && !step.CallReadUnlock? && !step.CallWriteUnlock?
    requires Somebody(b, WriteAsleep) && !Owned(b.lock)
    ensures Somebody(b, ReadAwake) || Somebody(b, WriteAwake)
  {
    StepKeepsCounts(a, b, step);
    AsleepIsCounted(b);
    hide Sum;
    var t := step.t;
    if step.WakeSpuriously? {
      assert b.threads[t].mode == ReadAwake || b.threads[t].mode == WriteAwake;
    } else {
      assert !Owned(a.lock);
      assert b.threads[t].mode == a.threads[t].mode == Outside;
      assert forall i :: 0 <= i < |a.threads| ==> b.threads[i].mode == a.threads[i].mode;
      var w :| 0 <= w < |b.threads| && b.threads[w].mode == WriteAsleep;
      assert a.threads[w].mode == WriteAsleep;
      var i :| 0 <= i < |a.threads| && (a.threads[i].mode == ReadAwake || a.threads[i].mode == WriteAwake);
      assert b.threads[i].mode == a.threads[i].mode;
    }
  }

  /** Every step of every thread keeps the invariants. */
  lemma StepKeepsInv(a: System, b: System, step: Step)
    requires Inv(a) && Next(a, b, step)
    ensures Inv(b)
  {
    StepKeepsCounts(a, b, step);
    ReadersNotLost(a, b, step);
    if Somebody(b, WriteAsleep) && !Owned(b.lock) {
      if step.CallReadUnlock? || step.CallWriteUnlock? {
        UnlockWakesSomebody(a, b, step);
      } else {
        OtherStepsLoseNoWriter(a, b, step);
      }
    }
  }

  lemma {:induction false} NobodyCounts(ts: seq<Thread>, f: Thread -> nat)
    requires forall i :: 0 <= i < |ts| ==> f(ts[i]) == 0
    ensures Sum(ts, f) == 0
    decreases |ts|
  {
    if ts != [] { NobodyCounts(ts[..|ts| - 1], f); }
  }

  lemma InitInv(s: System)
    requires Init(s)
    ensures Inv(s)
  {
    NobodyCounts(s.threads, READS);
    NobodyCounts(s.threads, WRITES);
    NobodyCounts(s.threads, READ_WAITERS);
    NobodyCounts(s.threads, WRITE_WAITERS);
  }

  // ---------- what holds in every run ----------

  /** In every state of every run, for any number of threads. */
  lemma {:induction false} RunsKeepInv(states: seq<System>, steps: seq<Step>, i: nat)
    requires Trace(states, steps) && i < |states|
    ensures Inv(states[i])
  {
    if i == 0 {
      InitInv(states[0]);
    } else {
      RunsKeepInv(states, steps, i - 1);
      StepKeepsInv(states[i - 1], states[i], steps[i - 1]);
    }
  }

  // ---------- what a step does for its thread ----------

  ghost predicate Reading(s: System) {
    exists i :: 0 <= i < |s.threads| && s.threads[i].readLocks > 0
  }

  ghost predicate Writing(s: System) {
    exists i :: 0 <= i < |s.threads| && s.threads[i].writeLocks > 0
  }

  /** The counters tell whether somebody holds the lock. */
  lemma CountersTell(s: System)
    requires Inv(s)
    ensures (s.lock.rActive > 0 <==> Reading(s)) && (s.lock.wActive != 0 <==> Writing(s))
  {
    if s.lock.rActive > 0 {
      var i := SumWitness(s.threads, READS);
    }
    if s.lock.wActive != 0 {
      var i := SumWitness(s.threads, WRITES);
    }
    if i: nat :| i < |s.threads| && s.threads[i].readLocks > 0 {
      ChangeOne(s.threads, i, s.threads[i]);
    }
    if i: nat :| i < |s.threads| && s.threads[i].writeLocks > 0 {
      ChangeOne(s.threads, i, s.threads[i]);
    }
  }

  /** Only thread t changed, and this is what became of it. */
  ghost predicate Became(a: System, b: System, t: nat, me: Thread) {
    t < |a.threads| && b.threads == a.threads[t := me]
  }

  /** Whoever asks for a read lock, in any way, gets it exactly if nobody holds the lock for
      writing.  Otherwise a try leaves everything as it was, and the others go to sleep. */
  lemma ReadGranted(a: System, b: System, step: Step)
    requires Inv(a) && a.lock.valid && Next(a, b, step)
    requires step.CallReadLock? || step.RecheckRead? || step.CallReadTry?
    ensures var me := a.threads[step.t];
      if !Writing(a) then Became(a, b, step.t, me.(mode := Outside, readLocks := me.readLocks + 1))
      else if step.CallReadTry? then b == a
      else Became(a, b, step.t, me.(mode := ReadAsleep))
    ensures step.CallReadTry? ==> ReadTryLock(a.lock).verdict == if Writing(a) then Busy else Ok
  {
    CountersTell(a);
  }

  /** Whoever asks for the write lock gets it exactly if nobody holds the lock at all. */
  lemma WriteGranted(a: System, b: System, step: Step)
    requires Inv(a) && a.lock.valid && Next(a, b, step)
    requires step.CallWriteLock? || step.RecheckWrite? || step.CallWriteTry?
    ensures var me := a.threads[step.t];
      if !Reading(a) && !Writing(a) then Became(a, b, step.t, me.(mode := Outside, writeLocks := me.writeLocks + 1))
      else if step.CallWriteTry? then b == a
      else Became(a, b, step.t, me.(mode := WriteAsleep))
    ensures step.CallWriteTry? ==> WriteTryLock(a.lock).verdict == if Reading(a) || Writing(a) then Busy else Ok
  {
    CountersTell(a);
  }

  /** An unlock always succeeds for a holder: it gives back exactly one lock.  It changes no
      other thread but by waking it, and a writer that leaves wakes every sleeping reader. */
  lemma UnlockGivesBack(a: System, b: System, step: Step)
    requires Inv(a) && Next(a, b, step) && (step.CallReadUnlock? || step.CallWriteUnlock?)
    ensures var me := a.threads[step.t];
      b.threads[step.t] == if step.CallReadUnlock? then me.(readLocks := me.readLocks - 1) else me.(writeLocks := me.writeLocks - 1)
    ensures |b.threads| == |a.threads| && forall i :: 0 <= i < |a.threads| && i != step.t ==>
      || b.threads[i] == a.threads[i]
      || (a.threads[i].mode == ReadAsleep && b.threads[i] == a.threads[i].(mode := ReadAwake))
      || (a.threads[i].mode == WriteAsleep && b.threads[i] == a.threads[i].(mode := WriteAwake))
    ensures step.CallWriteUnlock? ==> !Somebody(b, ReadAsleep)
  {
    CountersTell(a);
    AsleepIsCounted(a);
  }

  /** A destroyed lock refuses every call, and nothing changes. */
  lemma DeadLockRefuses(a: System, b: System, step: Step)
    requires Inv(a) && !a.lock.valid && Next(a, b, step) && !step.WakeSpuriously?
    ensures b == a
  {
    CountersTell(a);
    ChangeOne(a.threads, step.t, a.threads[step.t]);
  }

  /** Exclusion between threads: while one holds the lock for writing, no other holds it
      at all, and it holds it once. */
  lemma WriterIsAlone(s: System, w: nat, t: nat)
    requires Inv(s) && w < |s.threads| && t < |s.threads| && s.threads[w].writeLocks > 0
    ensures s.threads[w].writeLocks == 1 && s.threads[t].readLocks == 0
    ensures t != w ==> s.threads[t].writeLocks == 0
  {
    SumUpdate(s.threads, WRITES, w, s.threads[w].(writeLocks := 0));
    SumUpdate(s.threads[w := s.threads[w].(writeLocks := 0)], WRITES, t, s.threads[t]);
    SumUpdate(s.threads, READS, t, s.threads[t]);
  }

  /** A thread that holds a read lock is granted another one at once. */
  lemma ReaderNeverBlocks(a: System, b: System, t: nat)
    requires Inv(a) && Next(a, b, CallReadLock(t)) && a.threads[t].readLocks > 0
    ensures b.threads[t] == a.threads[t].(readLocks := a.threads[t].readLocks + 1)
  {
    SumUpdate(a.threads, READS, t, a.threads[t]);
  }

  /** The lock is destroyed only when nobody holds it and nobody waits for it. */
  lemma DestroyNeedsIdle(a: System, b: System, t: nat)
    requires Inv(a) && Next(a, b, CallDestroy(t)) && a.lock.valid
    ensures !b.lock.valid <==>
      forall i :: 0 <= i < |a.threads| ==>
        a.threads[i].mode == Outside && a.threads[i].readLocks == 0 && a.threads[i].writeLocks == 0
    ensures Destroy(a.lock).verdict == (if b.lock.valid then Busy else Ok) && b.threads == a.threads
    ensures b.lock == a.lock.(valid := b.lock.valid)
  {
    if !b.lock.valid {
      forall i: nat | i < |a.threads|
        ensures a.threads[i].mode == Outside && a.threads[i].readLocks == 0 && a.threads[i].writeLocks == 0
      {
        ChangeOne(a.threads, i, a.threads[i]);
      }
    }
    if forall i :: 0 <= i < |a.threads| ==>
        a.threads[i].mode == Outside && a.threads[i].readLocks == 0 && a.threads[i].writeLocks == 0 {
      NobodyCounts(a.threads, READS);
      NobodyCounts(a.threads, WRITES);
      NobodyCounts(a.threads, READ_WAITERS);
      NobodyCounts(a.threads, WRITE_WAITERS);
    }
  }

  /** A free lock with waiters always has one that is awake, and whichever awake thread
      re-checks first gets the lock. */
  lemma FreeLockIsTaken(s: System) returns (t: nat)
    requires Inv(s) && !Owned(s.lock) && (s.lock.rWait > 0 || s.lock.wWait > 0)
    ensures t < |s.threads| && (s.threads[t].mode == ReadAwake || s.threads[t].mode == WriteAwake)
    ensures s.threads[t].mode == ReadAwake ==> ReadRecheck(s.lock).verdict == Ok
    ensures s.threads[t].mode == WriteAwake ==> WriteRecheck(s.lock).verdict == Ok
  {
    if s.lock.rWait > 0 { AwakeReader(s); } else { AwakeWriter(s); }
    t :| t < |s.threads| && (s.threads[t].mode == ReadAwake || s.threads[t].mode == WriteAwake);
  }

  /** As long as whoever holds the lock is not itself waiting for it, waiting never
      becomes a deadlock: some thread can re-check, or some holder can unlock. */
  lemma NoDeadlock(s: System) returns (t: nat)
    requires Inv(s) && (s.lock.rWait > 0 || s.lock.wWait > 0)
    requires forall i :: 0 <= i < |s.threads| && (s.threads[i].readLocks > 0 || s.threads[i].writeLocks > 0) ==>
      s.threads[i].mode == Outside
    ensures t < |s.threads|
    ensures (s.threads[t].mode == ReadAwake && ReadRecheck(s.lock).verdict == Ok)
      || (s.threads[t].mode == WriteAwake && WriteRecheck(s.lock).verdict == Ok)
      || (s.threads[t].mode == Outside && s.threads[t].readLocks > 0 && ReadUnlock(s.lock).verdict == Ok)
      || (s.threads[t].mode == Outside && s.threads[t].writeLocks > 0 && WriteUnlock(s.lock).verdict == Ok)
  {
    if !Owned(s.lock) {
      t := FreeLockIsTaken(s);
    } else if s.lock.rActive > 0 {
      t := SumWitness(s.threads, READS);
    } else {
      t := SumWitness(s.threads, WRITES);
    }
  }
}

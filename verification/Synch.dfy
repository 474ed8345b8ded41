/** Locks, semaphores and conditions (synch.cc) over the thread system, as a step machine.

    A context switch can only happen inside Yield or Sleep, or on a tick that ends in a Yield.
    Everything between two such points is one atomic operation below.  Yield is enabled whenever
    a thread runs, so every interleaving the machine can produce is a run. */
module Synch {
  import opened Threads

  /** `inside` is a history variable: the threads past Acquire and not yet through Release. */
  datatype Lock = Lock(taken: bool, owner: Tid, inside: set<Tid>)

  /** Semaphores are their values, conditions their counters of waiting threads.  The wait queues
      of all objects are kept by the thread system. */
  datatype Kernel = Kernel(ts: System, locks: map<Id, Lock>, sems: map<Id, int>, conds: map<Id, int>)

  function Me(k: Kernel): Thread
    requires k.ts.current in k.ts.table
  {
    k.ts.table[k.ts.current]
  }

  // ---------------------------------------------------------------- operations

  /** One turn of the while loop of Lock::Acquire, with what follows when it ends. */
  function Acquire(k: Kernel, l: Id): Kernel
    requires k.ts.current in k.ts.table && l in k.locks
    requires k.ts.ready != [] ==> k.ts.ready[0] in k.ts.table
  {
    var lock, me := k.locks[l], k.ts.current;
    if lock.owner != me && lock.taken then
      k.(ts := Schedule(Enqueue(k.ts, LockQueue(l), 0)))
    else
      k.(ts := GoTo(k.ts, Code), locks := k.locks[l := Lock(true, me, lock.inside + {me})])
  }

  /** Lock::Release.  `owner` keeps its old value. */
  function Release(k: Kernel, l: Id): Kernel
    requires l in k.locks
    requires Waiters(k.ts, LockQueue(l)) != [] ==> Waiters(k.ts, LockQueue(l))[0] in k.ts.table
  {
    var lock, me := k.locks[l], k.ts.current;
    if lock.owner != me then k
    else k.(ts := Wake(k.ts, LockQueue(l)), locks := k.locks[l := Lock(false, me, lock.inside - {me})])
  }

  /** One turn of the while loop of Semaphore::P, with what follows when it ends. */
  function P(k: Kernel, s: Id): Kernel
    requires k.ts.current in k.ts.table && s in k.sems
    requires k.ts.ready != [] ==> k.ts.ready[0] in k.ts.table
  {
    if k.sems[s] == 0 then k.(ts := Schedule(Enqueue(k.ts, SemQueue(s), 0)))
    else k.(ts := GoTo(k.ts, Code), sems := k.sems[s := k.sems[s] - 1])
  }

  /** Semaphore::V, also called by interrupt handlers. */
  function V(k: Kernel, s: Id): Kernel
    requires s in k.sems
    requires Waiters(k.ts, SemQueue(s)) != [] ==> Waiters(k.ts, SemQueue(s))[0] in k.ts.table
  {
    k.(ts := Wake(k.ts, SemQueue(s)), sems := k.sems[s := k.sems[s] + 1])
  }

  /** Condition::Wait up to its Sleep, seen by the threads: the current thread joins the queue of
      the condition, the first waiter of the released lock is readied, and another thread runs. */
  function WaitAndRelease(s: System, c: Id, l: Id): System
    requires SystemOk(s) && IsRunning(s) && s.table[s.current].loc == Code
  {
    EnqueueKeepsInv(s, CondQueue(c), l);
    var s1 := Enqueue(s, CondQueue(c), l);
    WakeKeepsInv(s1, LockQueue(l));
    Schedule(Wake(s1, LockQueue(l)))
  }

  /** Condition::Wait up to its Sleep. */
  function Wait(k: Kernel, c: Id, l: Id): Kernel
    requires SystemOk(k.ts) && Enabled(k, OpWait(c, l))
  {
    var lock, me := k.locks[l], k.ts.current;
    if lock.owner != me then k
    else k.(ts := WaitAndRelease(k.ts, c, l),
            locks := k.locks[l := Lock(false, me, lock.inside - {me})],
            conds := k.conds[c := k.conds[c] + 1])
  }

  /** Condition::Signal */
  function Signal(k: Kernel, c: Id, l: Id): Kernel
    requires c in k.conds && l in k.locks
    requires Waiters(k.ts, CondQueue(c)) != [] ==> Waiters(k.ts, CondQueue(c))[0] in k.ts.table
  {
    if k.locks[l].owner != k.ts.current || k.conds[c] <= 0 then k
    else k.(ts := Wake(k.ts, CondQueue(c)), conds := k.conds[c := k.conds[c] - 1])
  }

  /** Ready the first n waiters of a queue, in order. */
  function WakeMany(s: System, q: Queue, n: nat): System
    requires SystemOk(s)
    decreases n
  {
    if n == 0 then s
    else WakeKeepsInv(s, q); WakeMany(Wake(s, q), q, n - 1)
  }

  /** Condition::Broadcast */
  function Broadcast(k: Kernel, c: Id, l: Id): Kernel
    requires SystemOk(k.ts) && c in k.conds && l in k.locks
  {
    if k.locks[l].owner != k.ts.current || k.conds[c] <= 0 then k
    else k.(ts := WakeMany(k.ts, CondQueue(c), k.conds[c]), conds := k.conds[c := 0])
  }

  // ---------------------------------------------------------------- the step machine

  datatype Op =
    | OpAcquire(lock: Id) | OpRelease(lock: Id) | OpP(sem: Id) | OpV(sem: Id)
    | OpWait(cond: Id, lock: Id) | OpWaitReturn | OpSignal(cond: Id, lock: Id) | OpBroadcast(cond: Id, lock: Id)
    | OpYield | OpCreate(tid: Tid) | OpFork(tid: Tid) | OpFinish
    | OpDispatch                 // the idle loop of Sleep finds a ready thread

  /** What the source lets happen next.  V may come from an interrupt handler at any time. */
  predicate Enabled(k: Kernel, op: Op) {
    && k.ts.current in k.ts.table
    && match op
       case OpAcquire(l) => IsRunning(k.ts) && l in k.locks && InLoop(Me(k).loc, LockQueue(l))
       case OpRelease(l) => IsRunning(k.ts) && l in k.locks && Me(k).loc == Code
       case OpP(s) => IsRunning(k.ts) && s in k.sems && InLoop(Me(k).loc, SemQueue(s))
       case OpV(s) => s in k.sems
       case OpWait(c, l) => IsRunning(k.ts) && c in k.conds && l in k.locks && Me(k).loc == Code
       case OpWaitReturn => IsRunning(k.ts) && Me(k).loc.At? && Me(k).loc.queue.CondQueue?
       case OpSignal(c, l) => IsRunning(k.ts) && c in k.conds && l in k.locks && Me(k).loc == Code
       case OpBroadcast(c, l) => IsRunning(k.ts) && c in k.conds && l in k.locks && Me(k).loc == Code
       case OpYield => IsRunning(k.ts)
       case OpCreate(t) => IsRunning(k.ts) && t !in k.ts.table
       case OpFork(t) => IsRunning(k.ts) && t in k.ts.table && k.ts.table[t].status == JustCreated
       case OpFinish => IsRunning(k.ts) && Me(k).loc == Code
       case OpDispatch => !IsRunning(k.ts) && k.ts.ready != []
  }

  function Apply(k: Kernel, op: Op): Kernel
    requires KernelOk(k) && Enabled(k, op)
  {
    match op
    case OpAcquire(l) => Acquire(k, l)
    case OpRelease(l) => WakeKeepsInv(k.ts, LockQueue(l)); Release(k, l)
    case OpP(s) => P(k, s)
    case OpV(s) => WakeKeepsInv(k.ts, SemQueue(s)); V(k, s)
    case OpWait(c, l) => Wait(k, c, l)
    case OpWaitReturn => k.(ts := GoTo(k.ts, At(LockQueue(Me(k).loc.mutex), 0)))
    case OpSignal(c, l) => WakeKeepsInv(k.ts, CondQueue(c)); Signal(k, c, l)
    case OpBroadcast(c, l) => Broadcast(k, c, l)
    case OpYield => k.(ts := Yield(k.ts))
    case OpCreate(t) => k.(ts := Create(k.ts, t))
    case OpFork(t) => k.(ts := ReadyToRun(k.ts, t))
    case OpFinish => k.(ts := Finish(k.ts))
    case OpDispatch => k.(ts := RunNext(k.ts))
  }

  // ---------------------------------------------------------------- the invariant

  /** A lock is held by at most one thread, its owner; and while threads sleep on it, either it is
      taken or some woken thread has yet to test it again. */
  ghost predicate LockOk(k: Kernel, l: Id)
    requires l in k.locks
  {
    && k.locks[l].inside == (if k.locks[l].taken then {k.locks[l].owner} else {})
    && (Waiters(k.ts, LockQueue(l)) != [] ==> k.locks[l].taken || Woken(k.ts, LockQueue(l)) != {})
  }

  /** While threads sleep on a semaphore, each unit of its value has a woken thread to take it. */
  ghost predicate SemOk(k: Kernel, s: Id)
    requires s in k.sems
  {
    && 0 <= k.sems[s]
    && (Waiters(k.ts, SemQueue(s)) != [] ==> k.sems[s] <= |Woken(k.ts, SemQueue(s))|)
  }

  ghost predicate CondOk(k: Kernel, c: Id)
    requires c in k.conds
  {
    k.conds[c] == |Waiters(k.ts, CondQueue(c))|
  }

  ghost predicate KernelOk(k: Kernel) {
    && SystemOk(k.ts)
    && (forall l {:trigger LockOk(k, l)} :: l in k.locks ==> LockOk(k, l))
    && (forall s {:trigger SemOk(k, s)} :: s in k.sems ==> SemOk(k, s))
    && (forall c {:trigger CondOk(k, c)} :: c in k.conds ==> CondOk(k, c))
  }

  // ---------------------------------------------------------------- every operation keeps it

  /** An object keeps its consistency when neither its fields nor its queue change. */
  lemma UntouchedKept(k: Kernel, r: Kernel)
    requires KernelOk(k)
    ensures forall l :: (l in k.locks && l in r.locks && r.locks[l] == k.locks[l]
                         && SameQueue(k.ts, r.ts, LockQueue(l))) ==> LockOk(r, l)
    ensures forall s :: (s in k.sems && s in r.sems && r.sems[s] == k.sems[s]
                         && SameQueue(k.ts, r.ts, SemQueue(s))) ==> SemOk(r, s)
    ensures forall c :: (c in k.conds && c in r.conds && r.conds[c] == k.conds[c]
                         && SameQueue(k.ts, r.ts, CondQueue(c))) ==> CondOk(r, c)
  {
    forall l | l in k.locks && l in r.locks && r.locks[l] == k.locks[l] && SameQueue(k.ts, r.ts, LockQueue(l))
      ensures LockOk(r, l)
    {
      assert LockOk(k, l);
    }
    forall s | s in k.sems && s in r.sems && r.sems[s] == k.sems[s] && SameQueue(k.ts, r.ts, SemQueue(s))
      ensures SemOk(r, s)
    {
      assert SemOk(k, s);
    }
    forall c | c in k.conds && c in r.conds && r.conds[c] == k.conds[c] && SameQueue(k.ts, r.ts, CondQueue(c))
      ensures CondOk(r, c)
    {
      assert CondOk(k, c);
    }
  }

  lemma AcquireKeepsInv(k: Kernel, l: Id)
    requires KernelOk(k) && Enabled(k, OpAcquire(l))
    ensures KernelOk(Acquire(k, l))
  {
    var r := Acquire(k, l);
    assert LockOk(k, l);
    if k.locks[l].owner != k.ts.current && k.locks[l].taken {
      SleepKeepsInv(k.ts, LockQueue(l), 0);
    } else {
      GoToCodeKeepsInv(k.ts, LockQueue(l));
    }
    UntouchedKept(k, r);
    assert LockOk(r, l);
  }

  lemma ReleaseKeepsInv(k: Kernel, l: Id)
    requires KernelOk(k) && Enabled(k, OpRelease(l))
    ensures KernelOk(Apply(k, OpRelease(l)))
  {
    WakeKeepsInv(k.ts, LockQueue(l));
    var r := Release(k, l);
    assert LockOk(k, l);
    UntouchedKept(k, r);
    assert LockOk(r, l);
  }

  lemma PKeepsInv(k: Kernel, s: Id)
    requires KernelOk(k) && Enabled(k, OpP(s))
    ensures KernelOk(P(k, s))
  {
    var r := P(k, s);
    assert SemOk(k, s);
    if k.sems[s] == 0 {
      SleepKeepsInv(k.ts, SemQueue(s), 0);
    } else {
      GoToCodeKeepsInv(k.ts, SemQueue(s));
    }
    UntouchedKept(k, r);
    assert SemOk(r, s);
  }

  lemma VKeepsInv(k: Kernel, s: Id)
    requires KernelOk(k) && Enabled(k, OpV(s))
    ensures KernelOk(Apply(k, OpV(s)))
  {
    WakeKeepsInv(k.ts, SemQueue(s));
    var r := V(k, s);
    assert SemOk(k, s);
    UntouchedKept(k, r);
    assert SemOk(r, s);
  }

  lemma WaitAndReleaseKeepsInv(s: System, c: Id, l: Id)
    requires SystemOk(s) && IsRunning(s) && s.table[s.current].loc == Code
    ensures var r := WaitAndRelease(s, c, l);
            && SystemOk(r)
            && (forall q :: q != CondQueue(c) && q != LockQueue(l) ==> SameQueue(s, r, q))
            && Waiters(r, CondQueue(c)) == Waiters(s, CondQueue(c)) + [s.current]
            && Woken(r, CondQueue(c)) == Woken(s, CondQueue(c))
            && (if Waiters(s, LockQueue(l)) == [] then SameQueue(s, r, LockQueue(l))
                else && Waiters(r, LockQueue(l)) == Waiters(s, LockQueue(l))[1..]
                     && Woken(r, LockQueue(l)) == Woken(s, LockQueue(l)) + {Waiters(s, LockQueue(l))[0]})
  {
    EnqueueKeepsInv(s, CondQueue(c), l);
    var s1 := Enqueue(s, CondQueue(c), l);
    WakeKeepsInv(s1, LockQueue(l));
    var s2 := Wake(s1, LockQueue(l));
    ScheduleKeepsInv(s2);
    var r := Schedule(s2);
    assert SameQueue(s, s1, LockQueue(l)) && SameQueue(s2, r, LockQueue(l));
    assert SameQueue(s1, s2, CondQueue(c)) && SameQueue(s2, r, CondQueue(c));
    forall q | q != CondQueue(c) && q != LockQueue(l)
      ensures SameQueue(s, r, q)
    {
      assert SameQueue(s, s1, q) && SameQueue(s1, s2, q) && SameQueue(s2, r, q);
    }
  }

  lemma TwoObjectsChanged(k: Kernel, r: Kernel, c: Id, l: Id)
    requires KernelOk(k) && SystemOk(r.ts) && c in k.conds && l in k.locks
    requires forall q :: q != CondQueue(c) && q != LockQueue(l) ==> SameQueue(k.ts, r.ts, q)
    requires r.locks.Keys == k.locks.Keys && (forall m :: m in k.locks && m != l ==> r.locks[m] == k.locks[m])
    requires r.conds.Keys == k.conds.Keys && (forall d :: d in k.conds && d != c ==> r.conds[d] == k.conds[d])
    requires r.sems == k.sems && LockOk(r, l) && CondOk(r, c)
    ensures KernelOk(r)
  {
    UntouchedKept(k, r);
  }

  lemma WaitKeepsInv(k: Kernel, c: Id, l: Id)
    requires KernelOk(k) && Enabled(k, OpWait(c, l))
    ensures KernelOk(Wait(k, c, l))
  {
    if k.locks[l].owner == k.ts.current {
      var r := Wait(k, c, l);
      assert LockOk(k, l) && CondOk(k, c);
      WaitAndReleaseKeepsInv(k.ts, c, l);
      assert LockOk(r, l) && CondOk(r, c);
      TwoObjectsChanged(k, r, c, l);
    }
  }

  lemma WaitReturnKeepsInv(k: Kernel)
    requires KernelOk(k) && Enabled(k, OpWaitReturn)
    ensures KernelOk(Apply(k, OpWaitReturn))
  {
    var c, l := Me(k).loc.queue.cond, Me(k).loc.mutex;
    var r := Apply(k, OpWaitReturn);
    GoToKeepsInv(k.ts, At(LockQueue(l), 0));
    forall q | q != CondQueue(c) && q != LockQueue(l)
      ensures SameQueue(k.ts, r.ts, q)
    {
    }
    assert forall q :: Waiters(r.ts, q) == Waiters(k.ts, q);
    assert Woken(r.ts, LockQueue(l)) >= Woken(k.ts, LockQueue(l));
    UntouchedKept(k, r);
    assert l in k.locks ==> LockOk(k, l) && LockOk(r, l);
    assert c in k.conds ==> CondOk(k, c) && CondOk(r, c);
  }

  lemma SignalKeepsInv(k: Kernel, c: Id, l: Id)
    requires KernelOk(k) && Enabled(k, OpSignal(c, l))
    ensures KernelOk(Apply(k, OpSignal(c, l)))
  {
    WakeKeepsInv(k.ts, CondQueue(c));
    var r := Signal(k, c, l);
    assert CondOk(k, c);
    UntouchedKept(k, r);
    assert CondOk(r, c);
  }

  lemma {:induction false} WakeManyKeepsInv(s: System, q: Queue, n: nat)
    requires SystemOk(s) && n <= |Waiters(s, q)|
    ensures var r := WakeMany(s, q, n);
            SystemOk(r) && SameExcept(s, r, q) && Waiters(r, q) == Waiters(s, q)[n..]
            && Woken(r, q) == Woken(s, q) + (set t | t in Waiters(s, q)[..n])
    decreases n
  {
    if n > 0 {
      WakeKeepsInv(s, q);
      var m := Wake(s, q);
      WakeManyKeepsInv(m, q, n - 1);
      var r := WakeMany(s, q, n);
      forall p | p != q
        ensures SameQueue(s, r, p)
      {
        assert SameQueue(s, m, p) && SameQueue(m, r, p);
      }
      assert Waiters(s, q)[..n] == [Waiters(s, q)[0]] + Waiters(m, q)[..n - 1];
    }
  }

  lemma BroadcastKeepsInv(k: Kernel, c: Id, l: Id)
    requires KernelOk(k) && Enabled(k, OpBroadcast(c, l))
    ensures KernelOk(Broadcast(k, c, l))
  {
    var r := Broadcast(k, c, l);
    assert CondOk(k, c);
    if r != k {
      WakeManyKeepsInv(k.ts, CondQueue(c), k.conds[c]);
      UntouchedKept(k, r);
      assert CondOk(r, c);
    }
  }

  /** Every atomic operation keeps the invariant. */
  lemma StepKeepsInv(k: Kernel, op: Op)
    requires KernelOk(k) && Enabled(k, op)
    ensures KernelOk(Apply(k, op))
  {
    match op
    case OpAcquire(l) => AcquireKeepsInv(k, l);
    case OpRelease(l) => ReleaseKeepsInv(k, l);
    case OpP(s) => PKeepsInv(k, s);
    case OpV(s) => VKeepsInv(k, s);
    case OpWait(c, l) => WaitKeepsInv(k, c, l);
    case OpWaitReturn => WaitReturnKeepsInv(k);
    case OpSignal(c, l) => SignalKeepsInv(k, c, l);
    case OpBroadcast(c, l) => BroadcastKeepsInv(k, c, l);
    case OpYield => YieldKeepsInv(k.ts); UntouchedKept(k, Apply(k, op));
    case OpCreate(t) => CreateKeepsInv(k.ts, t); UntouchedKept(k, Apply(k, op));
    case OpFork(t) => ForkKeepsInv(k.ts, t); UntouchedKept(k, Apply(k, op));
    case OpFinish => FinishKeepsInv(k.ts); UntouchedKept(k, Apply(k, op));
    case OpDispatch => RunNextKeepsInv(k.ts); UntouchedKept(k, Apply(k, op));
  }

  // ---------------------------------------------------------------- what an operation leaves alone

  /** Only the current thread moves on; nobody but a finished thread disappears. */
  ghost predicate Frames(s: System, r: System) {
    && (forall u :: u in s.table && u != s.current && s.table[u].loc != Finished ==>
          u in r.table && r.table[u].loc == s.table[u].loc)
    && (forall u :: u in r.table && u !in s.table ==> r.table[u].loc == Code)
    && (forall u :: u in r.table && u in s.table && u != s.current ==> r.table[u].loc == s.table[u].loc)
  }

  ghost predicate MovedTo(s: System, r: System, loc: Loc) {
    s.current in r.table && r.table[s.current].loc == loc
  }

  lemma RunNextFrames(s: System)
    requires SystemOk(s) && !IsRunning(s) && s.ready != []
    ensures Frames(s, RunNext(s))
    ensures s.table[s.current].loc != Finished ==> MovedTo(s, RunNext(s), s.table[s.current].loc)
  {
    assert Placed(s, s.ready[0]);
  }

  lemma SleepFrames(s: System, q: Queue, mutex: Id)
    requires SystemOk(s) && IsRunning(s) && InLoop(s.table[s.current].loc, q)
    ensures var r := (EnqueueKeepsInv(s, q, mutex); Schedule(Enqueue(s, q, mutex)));
            Frames(s, r) && MovedTo(s, r, At(q, mutex))
  {
    EnqueueKeepsInv(s, q, mutex);
    var m := Enqueue(s, q, mutex);
    if m.ready != [] { RunNextFrames(m); }
  }

  lemma WakeFrames(s: System, q: Queue)
    requires SystemOk(s)
    ensures var r := (WakeKeepsInv(s, q); Wake(s, q));
            Frames(s, r) && s.table.Keys == r.table.Keys && MovedTo(s, r, s.table[s.current].loc)
  {
    WakeKeepsInv(s, q);
  }

  lemma WaitFrames(s: System, c: Id, l: Id)
    requires SystemOk(s) && IsRunning(s) && s.table[s.current].loc == Code
    ensures var r := WaitAndRelease(s, c, l);
            Frames(s, r) && MovedTo(s, r, At(CondQueue(c), l))
  {
    EnqueueKeepsInv(s, CondQueue(c), l);
    var s1 := Enqueue(s, CondQueue(c), l);
    WakeKeepsInv(s1, LockQueue(l));
    WakeFrames(s1, LockQueue(l));
    var s2 := Wake(s1, LockQueue(l));
    if s2.ready != [] { RunNextFrames(s2); }
  }

  lemma {:induction false} WakeManyFrames(s: System, q: Queue, n: nat)
    requires SystemOk(s)
    ensures var r := WakeMany(s, q, n);
            Frames(s, r) && s.table.Keys == r.table.Keys && r.current == s.current
            && MovedTo(s, r, s.table[s.current].loc)
    decreases n
  {
    if n > 0 {
      WakeKeepsInv(s, q);
      WakeFrames(s, q);
      WakeManyFrames(Wake(s, q), q, n - 1);
    }
  }

  lemma YieldFrames(s: System)
    requires SystemOk(s) && IsRunning(s)
    ensures Frames(s, Yield(s)) && MovedTo(s, Yield(s), s.table[s.current].loc)
  {
    if s.ready != [] {
      assert Placed(s, s.ready[0]) && Placed(s, s.current);
    }
  }

  lemma FinishFrames(s: System)
    requires SystemOk(s) && IsRunning(s) && s.table[s.current].loc == Code
    ensures Frames(s, Finish(s))
    ensures s.current in Finish(s).table ==> Finish(s).table[s.current].loc == Finished
  {
    assert Placed(s, s.current);
    assert s.ready != [] ==> Placed(s, s.ready[0]);
  }

  /** Where the current thread is after an operation. */
  function NextLoc(k: Kernel, op: Op): Loc
    requires Enabled(k, op)
  {
    match op
    case OpAcquire(l) => if k.locks[l].owner != k.ts.current && k.locks[l].taken then At(LockQueue(l), 0) else Code
    case OpP(s) => if k.sems[s] == 0 then At(SemQueue(s), 0) else Code
    case OpWait(c, l) => if k.locks[l].owner == k.ts.current then At(CondQueue(c), l) else Code
    case OpWaitReturn => At(LockQueue(Me(k).loc.mutex), 0)
    case OpFinish => Finished
    case _ => Me(k).loc
  }

  /** An operation changes the location of the current thread only. */
  lemma StepFrames(k: Kernel, op: Op)
    requires KernelOk(k) && Enabled(k, op)
    ensures Frames(k.ts, Apply(k, op).ts)
    ensures MovedTo(k.ts, Apply(k, op).ts, NextLoc(k, op))
            || (NextLoc(k, op) == Finished && k.ts.current !in Apply(k, op).ts.table)
  {
    match op
    case OpAcquire(l) =>
      if k.locks[l].owner != k.ts.current && k.locks[l].taken { SleepFrames(k.ts, LockQueue(l), 0); }
    case OpRelease(l) => WakeFrames(k.ts, LockQueue(l));
    case OpP(s) =>
      if k.sems[s] == 0 { SleepFrames(k.ts, SemQueue(s), 0); }
    case OpV(s) => WakeFrames(k.ts, SemQueue(s));
    case OpWait(c, l) =>
      if k.locks[l].owner == k.ts.current { WaitFrames(k.ts, c, l); }
    case OpSignal(c, l) => WakeFrames(k.ts, CondQueue(c));
    case OpBroadcast(c, l) =>
      if k.conds[c] > 0 { WakeManyFrames(k.ts, CondQueue(c), k.conds[c]); }
    case OpYield => YieldFrames(k.ts);
    case OpFinish => FinishFrames(k.ts);
    case OpDispatch => RunNextFrames(k.ts);
    case _ =>
  }

  /** The queues an operation may change. */
  predicate Touches(k: Kernel, op: Op, q: Queue)
    requires Enabled(k, op)
  {
    match op
    case OpAcquire(l) => q == LockQueue(l)
    case OpRelease(l) => q == LockQueue(l)
    case OpP(s) => q == SemQueue(s)
    case OpV(s) => q == SemQueue(s)
    case OpWait(c, l) => q == CondQueue(c) || q == LockQueue(l)
    case OpWaitReturn => q == Me(k).loc.queue || q == LockQueue(Me(k).loc.mutex)
    case OpSignal(c, l) => q == CondQueue(c)
    case OpBroadcast(c, l) => q == CondQueue(c)
    case _ => false
  }

  lemma StepUntouched(k: Kernel, op: Op, q: Queue)
    requires KernelOk(k) && Enabled(k, op) && !Touches(k, op, q)
    ensures SameQueue(k.ts, Apply(k, op).ts, q)
  {
    match op
    case OpAcquire(l) => AcquireUntouched(k, l, q);
    case OpRelease(l) => WakeKeepsInv(k.ts, LockQueue(l));
    case OpP(s) => PUntouched(k, s, q);
    case OpV(s) => WakeKeepsInv(k.ts, SemQueue(s));
    case OpWait(c, l) =>
      if k.locks[l].owner == k.ts.current { WaitAndReleaseKeepsInv(k.ts, c, l); }
    case OpSignal(c, l) => WakeKeepsInv(k.ts, CondQueue(c));
    case OpBroadcast(c, l) => BroadcastUntouched(k, c, l, q);
    case _ => ThreadsUntouched(k, op, q);
  }

  lemma AcquireUntouched(k: Kernel, l: Id, q: Queue)
    requires KernelOk(k) && Enabled(k, OpAcquire(l)) && q != LockQueue(l)
    ensures SameQueue(k.ts, Acquire(k, l).ts, q)
  {
    if k.locks[l].owner != k.ts.current && k.locks[l].taken {
      SleepKeepsInv(k.ts, LockQueue(l), 0);
    } else {
      GoToCodeKeepsInv(k.ts, LockQueue(l));
    }
  }

  lemma PUntouched(k: Kernel, s: Id, q: Queue)
    requires KernelOk(k) && Enabled(k, OpP(s)) && q != SemQueue(s)
    ensures SameQueue(k.ts, P(k, s).ts, q)
  {
    if k.sems[s] == 0 {
      SleepKeepsInv(k.ts, SemQueue(s), 0);
    } else {
      GoToCodeKeepsInv(k.ts, SemQueue(s));
    }
  }

  lemma BroadcastUntouched(k: Kernel, c: Id, l: Id, q: Queue)
    requires KernelOk(k) && Enabled(k, OpBroadcast(c, l)) && q != CondQueue(c)
    ensures SameQueue(k.ts, Broadcast(k, c, l).ts, q)
  {
    assert CondOk(k, c);
    if k.conds[c] > 0 {
      WakeManyKeepsInv(k.ts, CondQueue(c), k.conds[c]);
    }
  }

  lemma ThreadsUntouched(k: Kernel, op: Op, q: Queue)
    requires KernelOk(k) && Enabled(k, op) && !Touches(k, op, q)
    requires op.OpYield? || op.OpCreate? || op.OpFork? || op.OpFinish? || op.OpDispatch? || op.OpWaitReturn?
    ensures SameQueue(k.ts, Apply(k, op).ts, q)
  {
    match op
    case OpYield => YieldKeepsInv(k.ts);
    case OpCreate(t) => CreateKeepsInv(k.ts, t);
    case OpFork(t) => ForkKeepsInv(k.ts, t);
    case OpFinish => FinishKeepsInv(k.ts);
    case OpDispatch => RunNextKeepsInv(k.ts);
    case OpWaitReturn =>
  }

  /** An operation changes only the objects it names. */
  lemma StepObjects(k: Kernel, op: Op)
    requires KernelOk(k) && Enabled(k, op)
    ensures OnlyNamedChange(k, Apply(k, op), op)
  {
    match op
    case OpAcquire(l) => AcquireObjects(k, l);
    case OpWait(c, l) => WaitObjects(k, c, l);
    case OpBroadcast(c, l) => BroadcastObjects(k, c, l);
    case OpSignal(c, l) => SignalObjects(k, c, l);
    case _ =>
  }

  lemma AcquireObjects(k: Kernel, l: Id)
    requires KernelOk(k) && Enabled(k, OpAcquire(l))
    ensures OnlyNamedChange(k, Acquire(k, l), OpAcquire(l))
  {
  }

  lemma WaitObjects(k: Kernel, c: Id, l: Id)
    requires KernelOk(k) && Enabled(k, OpWait(c, l))
    ensures OnlyNamedChange(k, Wait(k, c, l), OpWait(c, l))
  {
  }

  lemma BroadcastObjects(k: Kernel, c: Id, l: Id)
    requires KernelOk(k) && Enabled(k, OpBroadcast(c, l))
    ensures OnlyNamedChange(k, Broadcast(k, c, l), OpBroadcast(c, l))
  {
  }

  lemma SignalObjects(k: Kernel, c: Id, l: Id)
    requires KernelOk(k) && Enabled(k, OpSignal(c, l))
    ensures OnlyNamedChange(k, (WakeKeepsInv(k.ts, CondQueue(c)); Signal(k, c, l)), OpSignal(c, l))
  {
    WakeKeepsInv(k.ts, CondQueue(c));
  }

  ghost predicate OnlyNamedChange(k: Kernel, r: Kernel, op: Op) {
    && r.locks.Keys == k.locks.Keys && r.sems.Keys == k.sems.Keys && r.conds.Keys == k.conds.Keys
    && (forall l :: l in k.locks && op != OpAcquire(l) && op != OpRelease(l) && !(op.OpWait? && op.lock == l) ==>
          r.locks[l] == k.locks[l])
    && (forall s :: s in k.sems && op != OpP(s) && op != OpV(s) ==> r.sems[s] == k.sems[s])
    && (forall c :: c in k.conds && !((op.OpWait? || op.OpSignal? || op.OpBroadcast?) && op.cond == c) ==>
          r.conds[c] == k.conds[c])
  }
}

/** The synchronized list (synchlist.cc): a monitor made of a lock, a condition and a list, used by
    any number of threads of the kernel while other threads do anything that does not name the
    monitor's private lock and condition.

    A thread may be switched out between any two steps below, also where the machine would not do it.
    Appending the item and signalling are one step, because no interrupt is taken between them: a tick
    comes only when interrupts are enabled again, inside Signal. */
module SynchList {
  import opened Threads
  import opened Synch

  /** Where a thread is inside Append or Remove.  `signalled` marks a consumer that was woken by a
      Signal since it last slept. */
  datatype Pc<+T> =
    | AppendEnter(item: T)        // in lock->Acquire()
    | AppendIn(item: T)           // about to append and signal
    | RemoveEnter(signalled: bool)   // in lock->Acquire(), called by Remove or by Wait
    | RemoveTest(signalled: bool)    // at the test of the while loop
    | RemoveTake(signalled: bool)    // about to take the first item
    | RemoveWait                     // in listEmpty->Wait(lock), before its Acquire
    | Leaving                        // in lock->Release()

  /** `appended` and `removed` are histories of the items put on and taken off the list. */
  datatype Monitor<+T> = Monitor(
    k: Kernel, lock: Id, cond: Id, pc: map<Tid, Pc<T>>, list: seq<T>, appended: seq<T>, removed: seq<T>)

  predicate Holds<T>(pc: Pc<T>) {
    pc.AppendIn? || pc.RemoveTest? || pc.RemoveTake? || pc.Leaving?
  }

  predicate IsSignalled<T>(pc: Pc<T>) {
    (pc.RemoveEnter? || pc.RemoveTest? || pc.RemoveTake?) && pc.signalled
  }

  // ---------------------------------------------------------------- steps

  datatype Action<+T> =
    | Outside(op: Op)                // a kernel operation outside the monitor
    | StartAppend(item: T) | StartRemove
    | Enter | DoAppend | Test | WaitReturn | Take | Leave

  /** The kernel operation names the lock or the condition of the monitor. */
  predicate Names<T>(m: Monitor<T>, op: Op) {
    match op
    case OpAcquire(l) => l == m.lock
    case OpRelease(l) => l == m.lock
    case OpWait(c, l) => c == m.cond || l == m.lock
    case OpSignal(c, l) => c == m.cond || l == m.lock
    case OpBroadcast(c, l) => c == m.cond || l == m.lock
    case _ => false
  }

  predicate Can<T>(m: Monitor<T>, a: Action<T>) {
    var me := m.k.ts.current;
    match a
    case Outside(op) =>
      && Enabled(m.k, op) && !Names(m, op)
      && (me !in m.pc || op == OpYield || op == OpDispatch || op.OpV?)
    case StartAppend(x) => IsRunning(m.k.ts) && Me(m.k).loc == Code && me !in m.pc
    case StartRemove => IsRunning(m.k.ts) && Me(m.k).loc == Code && me !in m.pc
    case Enter => IsRunning(m.k.ts) && me in m.pc && (m.pc[me].AppendEnter? || m.pc[me].RemoveEnter?)
    case DoAppend => IsRunning(m.k.ts) && me in m.pc && m.pc[me].AppendIn?
    case Test => IsRunning(m.k.ts) && me in m.pc && m.pc[me].RemoveTest?
    case WaitReturn => IsRunning(m.k.ts) && me in m.pc && m.pc[me].RemoveWait?
    case Take => IsRunning(m.k.ts) && me in m.pc && m.pc[me].RemoveTake?
    case Leave => IsRunning(m.k.ts) && me in m.pc && m.pc[me].Leaving?
  }

  predicate Passes(k: Kernel, l: Id)
    requires l in k.locks
  {
    k.locks[l].owner == k.ts.current || !k.locks[l].taken
  }

  ghost function Act<T>(m: Monitor<T>, a: Action<T>): Monitor<T>
    requires MonitorOk(m) && Can(m, a)
  {
    var me := m.k.ts.current;
    match a
    case Outside(op) => m.(k := Apply(m.k, op))
    case StartAppend(x) => m.(pc := m.pc[me := AppendEnter(x)])
    case StartRemove => m.(pc := m.pc[me := RemoveEnter(false)])
    case Enter =>
      InsideOk(m);
      m.(k := Apply(m.k, OpAcquire(m.lock)),
         pc := if !Passes(m.k, m.lock) then m.pc
               else m.pc[me := if m.pc[me].AppendEnter? then AppendIn(m.pc[me].item)
                               else RemoveTest(m.pc[me].signalled)])
    case DoAppend =>
      InsideOk(m);
      m.(k := Apply(m.k, OpSignal(m.cond, m.lock)), pc := m.pc[me := Leaving],
         list := m.list + [m.pc[me].item], appended := m.appended + [m.pc[me].item])
    case Test =>
      InsideOk(m);
      if m.list == [] then
        m.(k := Apply(m.k, OpWait(m.cond, m.lock)), pc := m.pc[me := RemoveWait])
      else m.(pc := m.pc[me := RemoveTake(m.pc[me].signalled)])
    case WaitReturn =>
      InsideOk(m);
      m.(k := Apply(m.k, OpWaitReturn), pc := m.pc[me := RemoveEnter(true)])
    case Take =>
      // the assertion that the item taken exists
      m.(pc := m.pc[me := Leaving], list := m.list[1..], removed := m.removed + [m.list[0]])
    case Leave =>
      InsideOk(m);
      m.(k := Apply(m.k, OpRelease(m.lock)), pc := m.pc - {me})
  }

  // ---------------------------------------------------------------- the invariant

  /** A thread inside the monitor's code is where its pc says, and holds the lock where it should. */
  ghost predicate PcOk<T>(m: Monitor<T>, t: Tid)
    requires m.lock in m.k.locks && t in m.pc
  {
    && t in m.k.ts.table
    && (Holds(m.pc[t]) <==> t in m.k.locks[m.lock].inside)
    && var loc := m.k.ts.table[t].loc;
       match m.pc[t]
       case AppendEnter(_) => InLoop(loc, LockQueue(m.lock))
       case RemoveEnter(_) => InLoop(loc, LockQueue(m.lock))
       case RemoveWait => loc == At(CondQueue(m.cond), m.lock)
       case _ => loc == Code
  }

  /** A thread outside it neither holds the lock nor waits on the monitor's objects. */
  ghost predicate OutsideOk<T>(m: Monitor<T>, t: Tid)
    requires m.lock in m.k.locks
  {
    && t !in m.k.locks[m.lock].inside
    && (t in m.k.ts.table && m.k.ts.table[t].loc.At? ==>
          var loc := m.k.ts.table[t].loc;
          loc.queue != LockQueue(m.lock) && loc.queue != CondQueue(m.cond)
          && (loc.queue.CondQueue? ==> loc.mutex != m.lock))
  }

  /** The consumers that a Signal has woken and that have not yet taken an item or slept again. */
  ghost function Signalled<T>(m: Monitor<T>): set<Tid> {
    Woken(m.k.ts, CondQueue(m.cond)) + set t | t in m.pc && IsSignalled(m.pc[t])
  }

  ghost predicate ThreadsOk<T>(m: Monitor<T>) {
    && KernelOk(m.k) && m.lock in m.k.locks && m.cond in m.k.conds
    && (forall t {:trigger PcOk(m, t)} :: t in m.pc ==> PcOk(m, t))
    && (forall t {:trigger OutsideOk(m, t)} :: t !in m.pc ==> OutsideOk(m, t))
  }

  ghost predicate MonitorOk<T>(m: Monitor<T>) {
    && ThreadsOk(m)
    && (forall t :: t in m.pc && m.pc[t].RemoveTake? ==> m.list != [])
    && m.appended == m.removed + m.list
    && (Waiters(m.k.ts, CondQueue(m.cond)) != [] ==> |m.list| <= |Signalled(m)|)
  }

  /** The running thread may do the kernel operation its pc asks for; holding the lock means being
      its owner. */
  lemma InsideOk<T>(m: Monitor<T>)
    requires MonitorOk(m) && IsRunning(m.k.ts) && m.k.ts.current in m.pc
    ensures var me := m.k.ts.current;
            match m.pc[me]
            case AppendEnter(_) => Enabled(m.k, OpAcquire(m.lock))
            case RemoveEnter(_) => Enabled(m.k, OpAcquire(m.lock))
            case RemoveWait => Enabled(m.k, OpWaitReturn)
            case _ => Me(m.k).loc == Code && m.k.locks[m.lock].taken && m.k.locks[m.lock].owner == me
                      && m.k.locks[m.lock].inside == {me}
                      && forall t :: t in m.pc && Holds(m.pc[t]) ==> t == me
  {
    assert PcOk(m, m.k.ts.current);
    assert LockOk(m.k, m.lock);
    assert forall t :: t in m.pc && Holds(m.pc[t]) ==> PcOk(m, t);
  }

  lemma {:induction false} SubsetSize(a: set<Tid>, b: set<Tid>)
    requires a <= b
    ensures |a| <= |b|
  {
    if a != {} {
      var x :| x in a;
      SubsetSize(a - {x}, b - {x});
    }
  }

  // ---------------------------------------------------------------- every step keeps it

  /** If only the current thread moved and it is where it should be, everybody is. */
  lemma OthersStay<T>(m: Monitor<T>, r: Monitor<T>)
    requires ThreadsOk(m) && KernelOk(r.k) && r.lock == m.lock && r.cond == m.cond
    requires m.lock in r.k.locks && m.cond in r.k.conds && Frames(m.k.ts, r.k.ts)
    requires forall t :: t != m.k.ts.current ==> (t in r.pc <==> t in m.pc) && (t in m.pc ==> r.pc[t] == m.pc[t])
    requires forall t :: t != m.k.ts.current ==> (t in r.k.locks[m.lock].inside <==> t in m.k.locks[m.lock].inside)
    requires var me := m.k.ts.current; if me in r.pc then PcOk(r, me) else OutsideOk(r, me)
    ensures ThreadsOk(r)
  {
    forall t | t in r.pc
      ensures PcOk(r, t)
    {
      assert t != m.k.ts.current ==> PcOk(m, t);
    }
    forall t | t !in r.pc
      ensures OutsideOk(r, t)
    {
      assert t != m.k.ts.current ==> OutsideOk(m, t);
    }
  }

  lemma OutsideKeeps<T>(m: Monitor<T>, op: Op)
    requires MonitorOk(m) && Can(m, Outside(op))
    ensures MonitorOk(Act(m, Outside(op)))
  {
    StepKeepsInv(m.k, op);
    StepFrames(m.k, op);
    StepObjects(m.k, op);
    assert !Touches(m.k, op, CondQueue(m.cond)) by {
      assert m.k.ts.current !in m.pc ==> OutsideOk(m, m.k.ts.current);
    }
    StepUntouched(m.k, op, CondQueue(m.cond));
    OutsideThreads(m, m.(k := Apply(m.k, op)), op);
  }

  lemma OutsideThreads<T>(m: Monitor<T>, r: Monitor<T>, op: Op)
    requires MonitorOk(m) && Can(m, Outside(op)) && r == m.(k := r.k) && KernelOk(r.k)
    requires Frames(m.k.ts, r.k.ts)
    requires m.lock in r.k.locks && m.cond in r.k.conds && r.k.locks[m.lock] == m.k.locks[m.lock]
    requires MovedTo(m.k.ts, r.k.ts, NextLoc(m.k, op)) || m.k.ts.current !in r.k.ts.table
    requires m.k.ts.current in r.k.ts.table || NextLoc(m.k, op) == Finished
    ensures ThreadsOk(r)
  {
    var me := m.k.ts.current;
    if me in m.pc {
      assert PcOk(m, me);
    } else {
      assert OutsideOk(m, me);
    }
    OthersStay(m, r);
  }

  /** The kernel facts every step of a thread inside the monitor uses. */
  lemma KernelStep<T>(m: Monitor<T>, op: Op)
    requires MonitorOk(m) && IsRunning(m.k.ts) && Enabled(m.k, op) && op != OpFinish
    ensures var r := Apply(m.k, op);
            && KernelOk(r) && Frames(m.k.ts, r.ts) && m.lock in r.locks && m.cond in r.conds
            && MovedTo(m.k.ts, r.ts, NextLoc(m.k, op))
  {
    assert Placed(m.k.ts, m.k.ts.current);
    StepKeepsInv(m.k, op);
    StepFrames(m.k, op);
    StepObjects(m.k, op);
  }

  lemma SignalledKept<T>(m: Monitor<T>, r: Monitor<T>)
    requires r.cond == m.cond && Woken(r.k.ts, CondQueue(m.cond)) == Woken(m.k.ts, CondQueue(m.cond))
    requires forall t :: t in m.pc && IsSignalled(m.pc[t]) <==> t in r.pc && IsSignalled(r.pc[t])
    ensures Signalled(r) == Signalled(m)
  {
  }

  lemma StartKeeps<T>(m: Monitor<T>, pc: Pc<T>)
    requires MonitorOk(m) && Can(m, StartRemove) && (pc.AppendEnter? || pc == RemoveEnter(false))
    ensures MonitorOk(m.(pc := m.pc[m.k.ts.current := pc]))
  {
    var r := m.(pc := m.pc[m.k.ts.current := pc]);
    assert OutsideOk(m, m.k.ts.current);
    OthersStay(m, r);
    SignalledKept(m, r);
  }

  lemma EnterKeeps<T>(m: Monitor<T>)
    requires MonitorOk(m) && Can(m, Enter)
    ensures MonitorOk(Act(m, Enter))
  {
    InsideOk(m);
    KernelStep(m, OpAcquire(m.lock));
    StepUntouched(m.k, OpAcquire(m.lock), CondQueue(m.cond));
    Entered(m, Act(m, Enter));
  }

  lemma Entered<T>(m: Monitor<T>, r: Monitor<T>)
    requires MonitorOk(m) && Can(m, Enter) && KernelOk(r.k) && Frames(m.k.ts, r.k.ts)
    requires SameQueue(m.k.ts, r.k.ts, CondQueue(m.cond)) && m.lock in r.k.locks && m.cond in r.k.conds
    requires r == m.(k := r.k, pc := r.pc)
    requires var me, lock := m.k.ts.current, m.k.locks[m.lock];
             if Passes(m.k, m.lock) then
               && MovedTo(m.k.ts, r.k.ts, Code) && r.k.locks[m.lock].inside == lock.inside + {me}
               && r.pc == m.pc[me := if m.pc[me].AppendEnter? then AppendIn(m.pc[me].item)
                                     else RemoveTest(m.pc[me].signalled)]
             else MovedTo(m.k.ts, r.k.ts, At(LockQueue(m.lock), 0)) && r.k.locks[m.lock] == lock && r.pc == m.pc
    ensures MonitorOk(r)
  {
    assert PcOk(m, m.k.ts.current);
    OthersStay(m, r);
    SignalledKept(m, r);
  }

  lemma LeaveKeeps<T>(m: Monitor<T>)
    requires MonitorOk(m) && Can(m, Leave)
    ensures MonitorOk(Act(m, Leave))
  {
    InsideOk(m);
    KernelStep(m, OpRelease(m.lock));
    StepUntouched(m.k, OpRelease(m.lock), CondQueue(m.cond));
    var r := Act(m, Leave);
    assert PcOk(m, m.k.ts.current);
    OthersStay(m, r);
    assert Signalled(r) == Signalled(m);
  }

  /** The list a consumer takes from is not empty, and what it takes is the oldest item not yet removed: the
      assertion of Remove fails only if that item was appended as NULL.  Taking uses up at most one
      signalled consumer. */
  lemma TakeKeeps<T>(m: Monitor<T>)
    requires MonitorOk(m) && Can(m, Take)
    ensures m.list != [] && |m.removed| < |m.appended| && m.list[0] == m.appended[|m.removed|]
    ensures MonitorOk(Act(m, Take))
  {
    Taken(m, Act(m, Take));
  }

  lemma Taken<T>(m: Monitor<T>, r: Monitor<T>)
    requires MonitorOk(m) && Can(m, Take) && m.list != []
    requires r == m.(pc := m.pc[m.k.ts.current := Leaving], list := m.list[1..], removed := m.removed + [m.list[0]])
    ensures MonitorOk(r)
  {
    TakenThreads(m, r);
    TakenSignalled(m, r);
    assert m.removed + [m.list[0]] + m.list[1..] == m.removed + m.list;
    InsideOk(m);
  }

  lemma TakenThreads<T>(m: Monitor<T>, r: Monitor<T>)
    requires MonitorOk(m) && Can(m, Take) && r.k == m.k && r.cond == m.cond && r.lock == m.lock
    requires r.pc == m.pc[m.k.ts.current := Leaving]
    ensures ThreadsOk(r)
  {
    assert PcOk(m, m.k.ts.current);
    OthersStay(m, r);
  }

  lemma TakenSignalled<T>(m: Monitor<T>, r: Monitor<T>)
    requires ThreadsOk(m) && ThreadsOk(r) && m.k.ts.current in m.pc && r.k == m.k && r.cond == m.cond && r.lock == m.lock
    requires r.pc == m.pc[m.k.ts.current := Leaving]
    ensures |Signalled(m)| <= |Signalled(r)| + 1
  {
    var me := m.k.ts.current;
    assert Signalled(m) - {me} <= Signalled(r);
    SubsetSize(Signalled(m) - {me}, Signalled(r));
  }

  /** Appending signals a sleeping consumer, if there is one. */
  lemma DoAppendKeeps<T>(m: Monitor<T>)
    requires MonitorOk(m) && Can(m, DoAppend)
    ensures MonitorOk(Act(m, DoAppend))
  {
    InsideOk(m);
    KernelStep(m, OpSignal(m.cond, m.lock));
    WakeKeepsInv(m.k.ts, CondQueue(m.cond));
    assert CondOk(m.k, m.cond);
    Appended(m, Act(m, DoAppend));
  }

  lemma Appended<T>(m: Monitor<T>, r: Monitor<T>)
    requires MonitorOk(m) && Can(m, DoAppend) && KernelOk(r.k) && Frames(m.k.ts, r.k.ts)
    requires m.cond in r.k.conds && r.k.locks == m.k.locks && MovedTo(m.k.ts, r.k.ts, Code)
    requires var me := m.k.ts.current;
             r == m.(k := r.k, pc := m.pc[me := Leaving], list := m.list + [m.pc[me].item],
                     appended := m.appended + [m.pc[me].item])
    requires var q, w := CondQueue(m.cond), Waiters(m.k.ts, CondQueue(m.cond));
             if w == [] then Waiters(r.k.ts, q) == []
             else Woken(r.k.ts, q) == Woken(m.k.ts, q) + {w[0]}
    ensures MonitorOk(r)
  {
    InsideOk(m);
    assert PcOk(m, m.k.ts.current);
    OthersStay(m, r);
    if Waiters(m.k.ts, CondQueue(m.cond)) != [] {
      OneMoreSignalled(m, r, Waiters(m.k.ts, CondQueue(m.cond))[0]);
    }
  }

  lemma OneMoreSignalled<T>(m: Monitor<T>, r: Monitor<T>, w: Tid)
    requires ThreadsOk(m) && w in Waiters(m.k.ts, CondQueue(m.cond)) && r.cond == m.cond
    requires m.k.ts.current in m.pc && m.pc[m.k.ts.current].AppendIn? && r.pc == m.pc[m.k.ts.current := Leaving]
    requires Woken(r.k.ts, CondQueue(m.cond)) == Woken(m.k.ts, CondQueue(m.cond)) + {w}
    ensures |Signalled(r)| == |Signalled(m)| + 1
  {
    WaiterIsUnsignalled(m, w);
    SignalledGrows(m, r, w);
  }

  lemma SignalledGrows<T>(m: Monitor<T>, r: Monitor<T>, w: Tid)
    requires w in m.pc && m.pc[w] == RemoveWait && r.cond == m.cond
    requires m.k.ts.current in m.pc && m.pc[m.k.ts.current].AppendIn? && r.pc == m.pc[m.k.ts.current := Leaving]
    requires Woken(r.k.ts, CondQueue(m.cond)) == Woken(m.k.ts, CondQueue(m.cond)) + {w}
    ensures Signalled(r) == Signalled(m) + {w}
  {
  }

  lemma WaiterIsUnsignalled<T>(m: Monitor<T>, w: Tid)
    requires ThreadsOk(m) && w in Waiters(m.k.ts, CondQueue(m.cond))
    ensures w in m.pc && m.pc[w] == RemoveWait && w !in Signalled(m)
  {
    assert QueueOk(m.k.ts, CondQueue(m.cond));
    assert w in m.pc ==> PcOk(m, w);
    assert w !in m.pc ==> OutsideOk(m, w);
  }

  /** A consumer sleeps only when the list is empty. */
  lemma TestKeeps<T>(m: Monitor<T>)
    requires MonitorOk(m) && Can(m, Test)
    ensures MonitorOk(Act(m, Test))
  {
    InsideOk(m);
    if m.list == [] {
      KernelStep(m, OpWait(m.cond, m.lock));
      Slept(m, Act(m, Test));
    } else {
      Chose(m, Act(m, Test));
    }
  }

  lemma Slept<T>(m: Monitor<T>, r: Monitor<T>)
    requires MonitorOk(m) && Can(m, Test) && m.list == [] && KernelOk(r.k) && Frames(m.k.ts, r.k.ts)
    requires m.lock in r.k.locks && m.cond in r.k.conds && MovedTo(m.k.ts, r.k.ts, At(CondQueue(m.cond), m.lock))
    requires r.k.locks[m.lock].inside == m.k.locks[m.lock].inside - {m.k.ts.current}
    requires r == m.(k := r.k, pc := m.pc[m.k.ts.current := RemoveWait])
    ensures MonitorOk(r)
  {
    InsideOk(m);
    assert PcOk(m, m.k.ts.current);
    OthersStay(m, r);
  }

  lemma Chose<T>(m: Monitor<T>, r: Monitor<T>)
    requires MonitorOk(m) && Can(m, Test) && m.list != []
    requires r == m.(pc := m.pc[m.k.ts.current := RemoveTake(m.pc[m.k.ts.current].signalled)])
    ensures MonitorOk(r)
  {
    assert PcOk(m, m.k.ts.current);
    OthersStay(m, r);
    SignalledKept(m, r);
  }

  lemma WaitReturnKeeps<T>(m: Monitor<T>)
    requires MonitorOk(m) && Can(m, WaitReturn)
    ensures MonitorOk(Act(m, WaitReturn))
  {
    InsideOk(m);
    KernelStep(m, OpWaitReturn);
    assert PcOk(m, m.k.ts.current);
    Returned(m, Act(m, WaitReturn));
  }

  lemma Returned<T>(m: Monitor<T>, r: Monitor<T>)
    requires MonitorOk(m) && Can(m, WaitReturn) && KernelOk(r.k) && Frames(m.k.ts, r.k.ts)
    requires m.cond in r.k.conds && r.k.locks == m.k.locks && MovedTo(m.k.ts, r.k.ts, At(LockQueue(m.lock), 0))
    requires r == m.(k := r.k, pc := m.pc[m.k.ts.current := RemoveEnter(true)])
    requires Waiters(r.k.ts, CondQueue(m.cond)) == Waiters(m.k.ts, CondQueue(m.cond))
    requires Woken(r.k.ts, CondQueue(m.cond)) == Woken(m.k.ts, CondQueue(m.cond)) - {m.k.ts.current}
    ensures MonitorOk(r)
  {
    var me := m.k.ts.current;
    assert PcOk(m, me);
    OthersStay(m, r);
    assert me in Woken(m.k.ts, CondQueue(m.cond));
    assert Signalled(r) == Signalled(m);
  }

  /** Every step of every thread keeps the invariant of the monitor. */
  lemma StepKeeps<T>(m: Monitor<T>, a: Action<T>)
    requires MonitorOk(m) && Can(m, a)
    ensures MonitorOk(Act(m, a))
  {
    match a
    case Outside(op) => OutsideKeeps(m, op);
    case StartAppend(x) => StartKeeps(m, AppendEnter(x));
    case StartRemove => StartKeeps(m, RemoveEnter(false));
    case Enter => EnterKeeps(m);
    case DoAppend => DoAppendKeeps(m);
    case Test => TestKeeps(m);
    case WaitReturn => WaitReturnKeeps(m);
    case Take => TakeKeeps(m);
    case Leave => LeaveKeeps(m);
  }

  // ---------------------------------------------------------------- whole runs

  ghost predicate Runs<T>(m: Monitor<T>, acts: seq<Action<T>>)
    requires MonitorOk(m)
    decreases |acts|
  {
    acts == [] || (Can(m, acts[0]) && (StepKeeps(m, acts[0]); Runs(Act(m, acts[0]), acts[1..])))
  }

  /** The state a run of the monitor ends in; every run keeps the invariant. */
  ghost function After<T>(m: Monitor<T>, acts: seq<Action<T>>): (r: Monitor<T>)
    requires MonitorOk(m) && Runs(m, acts)
    ensures MonitorOk(r) && r.lock == m.lock && r.cond == m.cond
    decreases |acts|
  {
    if acts == [] then m
    else StepKeeps(m, acts[0]); After(Act(m, acts[0]), acts[1..])
  }

  /** A new list in any kernel whose threads have not used its lock and condition. */
  ghost predicate Fresh<T>(m: Monitor<T>) {
    && KernelOk(m.k) && m.lock in m.k.locks && m.cond in m.k.conds && !m.k.locks[m.lock].taken
    && m.pc == map[] && m.list == [] && m.appended == [] && m.removed == []
    && forall t :: t in m.k.ts.table && m.k.ts.table[t].loc.At? ==>
         var loc := m.k.ts.table[t].loc;
         loc.queue != LockQueue(m.lock) && loc.queue != CondQueue(m.cond)
         && (loc.queue.CondQueue? ==> loc.mutex != m.lock)
  }

  lemma FreshIsOk<T>(m: Monitor<T>)
    requires Fresh(m)
    ensures MonitorOk(m)
  {
    assert LockOk(m.k, m.lock);
    forall t
      ensures OutsideOk(m, t)
    {
    }
    assert QueueOk(m.k.ts, CondQueue(m.cond));
    assert forall w :: w in Waiters(m.k.ts, CondQueue(m.cond)) ==> WaitsOn(m.k.ts, w, CondQueue(m.cond));
  }

  /** In every interleaving the synchronized list is an unbounded first-in first-out queue: the items
      removed so far are a prefix of the items appended so far, and the rest are on the list. */
  lemma FirstInFirstOut<T>(m: Monitor<T>, acts: seq<Action<T>>)
    requires Fresh(m) && MonitorOk(m) && Runs(m, acts)
    ensures var r := After(m, acts); r.appended == r.removed + r.list && r.removed <= r.appended
  {
  }

  /** No item waits on the list for a sleeping consumer that nobody signalled: the condition counts
      exactly the sleeping consumers, and while some sleep there are as many signalled consumers,
      each awake and on its way to an item, as there are items. */
  lemma NoLostItem<T>(m: Monitor<T>, acts: seq<Action<T>>)
    requires MonitorOk(m) && Runs(m, acts)
    ensures var r := After(m, acts);
            && r.k.conds[r.cond] == |Waiters(r.k.ts, CondQueue(r.cond))|
            && (Waiters(r.k.ts, CondQueue(r.cond)) != [] ==> |r.list| <= |Signalled(r)|)
            && (forall t :: t in Signalled(r) ==>
                  t in r.pc && t in r.k.ts.table && t !in Waiters(r.k.ts, CondQueue(r.cond))
                  && (r.pc[t].RemoveWait? ==> r.k.ts.table[t].status in {Ready, Running}))
  {
    var r := After(m, acts);
    assert CondOk(r.k, r.cond);
    forall t | t in Signalled(r)
      ensures t in r.pc && t in r.k.ts.table && t !in Waiters(r.k.ts, CondQueue(r.cond))
              && (r.pc[t].RemoveWait? ==> r.k.ts.table[t].status in {Ready, Running})
    {
      assert t in r.pc ==> PcOk(r, t);
      assert t !in r.pc ==> OutsideOk(r, t);
      assert QueueOk(r.k.ts, CondQueue(r.cond)) && Placed(r.k.ts, t);
    }
  }
}

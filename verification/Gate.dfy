/** The protocol by which threads use a device that takes one request at a time and answers with an
    interrupt: a lock, the call of the device, a semaphore that the interrupt handler raises, and the
    release (synchdisk.cc, PostOffice::Send in post.cc).  Any number of threads of the kernel use it while
    other threads do anything that does not name its private lock and semaphore. */
module Gate {
  import opened Threads
  import opened Synch

  /** Where a thread is inside the protocol.  `serial` numbers the requests made. */
  datatype Pc<+R> =
    | Entering(req: R)               // in lock->Acquire()
    | Issuing(req: R)                // about to call the device
    | Waiting(req: R, serial: nat)   // in semaphore->P()
    | Leaving(req: R, serial: nat)   // in lock->Release()

  /** `active` says that an interrupt is outstanding; `issued` and `completed` count requests and interrupts. */
  datatype Gate<+R> = Gate(
    k: Kernel, lock: Id, sem: Id, pc: map<Tid, Pc<R>>, active: bool, issued: nat, completed: nat)

  predicate Holds<R>(pc: Pc<R>) {
    !pc.Entering?
  }

  // ---------------------------------------------------------------- steps

  datatype Action<+R> =
    | Outside(op: Op)        // a kernel operation outside the protocol
    | Start(req: R) | Enter | Issue | AwaitDone | Interrupt | Leave

  predicate Names<R>(g: Gate<R>, op: Op) {
    match op
    case OpAcquire(l) => l == g.lock
    case OpRelease(l) => l == g.lock
    case OpP(s) => s == g.sem
    case OpV(s) => s == g.sem
    case OpWait(c, l) => l == g.lock
    case OpSignal(c, l) => l == g.lock
    case OpBroadcast(c, l) => l == g.lock
    case _ => false
  }

  predicate Can<R>(g: Gate<R>, a: Action<R>) {
    var me := g.k.ts.current;
    match a
    case Outside(op) =>
      && Enabled(g.k, op) && !Names(g, op)
      && (me !in g.pc || op == OpYield || op == OpDispatch || op.OpV?)
    case Start(req) => IsRunning(g.k.ts) && Me(g.k).loc == Code && me !in g.pc
    case Enter => IsRunning(g.k.ts) && me in g.pc && g.pc[me].Entering?
    case Issue => IsRunning(g.k.ts) && me in g.pc && g.pc[me].Issuing?
    case AwaitDone => IsRunning(g.k.ts) && me in g.pc && g.pc[me].Waiting?
    case Interrupt => g.active
    case Leave => IsRunning(g.k.ts) && me in g.pc && g.pc[me].Leaving?
  }

  predicate Passes(k: Kernel, l: Id)
    requires l in k.locks
  {
    k.locks[l].owner == k.ts.current || !k.locks[l].taken
  }

  ghost function Act<R>(g: Gate<R>, a: Action<R>): Gate<R>
    requires GateOk(g) && Can(g, a)
  {
    var me := g.k.ts.current;
    match a
    case Outside(op) => g.(k := Apply(g.k, op))
    case Start(req) => g.(pc := g.pc[me := Entering(req)])
    case Enter =>
      InsideOk(g);
      g.(k := Apply(g.k, OpAcquire(g.lock)),
         pc := if Passes(g.k, g.lock) then g.pc[me := Issuing(g.pc[me].req)] else g.pc)
    case Issue =>
      g.(active := true, issued := g.issued + 1, pc := g.pc[me := Waiting(g.pc[me].req, g.issued + 1)])
    case AwaitDone =>
      InsideOk(g);
      g.(k := Apply(g.k, OpP(g.sem)),
         pc := if g.k.sems[g.sem] == 0 then g.pc
               else g.pc[me := Leaving(g.pc[me].req, g.pc[me].serial)])
    case Interrupt => g.(k := Apply(g.k, OpV(g.sem)), active := false, completed := g.completed + 1)
    case Leave =>
      InsideOk(g);
      g.(k := Apply(g.k, OpRelease(g.lock)), pc := g.pc - {me})
  }

  // ---------------------------------------------------------------- the invariant

  ghost predicate PcOk<R>(g: Gate<R>, t: Tid)
    requires g.lock in g.k.locks && t in g.pc
  {
    && t in g.k.ts.table
    && (Holds(g.pc[t]) <==> t in g.k.locks[g.lock].inside)
    && match g.pc[t]
       case Entering(_) => InLoop(g.k.ts.table[t].loc, LockQueue(g.lock))
       case Waiting(_, _) => InLoop(g.k.ts.table[t].loc, SemQueue(g.sem))
       case _ => g.k.ts.table[t].loc == Code
  }

  ghost predicate OutsideOk<R>(g: Gate<R>, t: Tid)
    requires g.lock in g.k.locks
  {
    && t !in g.k.locks[g.lock].inside
    && (t in g.k.ts.table && g.k.ts.table[t].loc.At? ==>
          var loc := g.k.ts.table[t].loc;
          loc.queue != LockQueue(g.lock) && loc.queue != SemQueue(g.sem)
          && (loc.queue.CondQueue? ==> loc.mutex != g.lock))
  }

  ghost predicate ThreadsOk<R>(g: Gate<R>) {
    && KernelOk(g.k) && g.lock in g.k.locks && g.sem in g.k.sems
    && (forall t {:trigger PcOk(g, t)} :: t in g.pc ==> PcOk(g, t))
    && (forall t {:trigger OutsideOk(g, t)} :: t !in g.pc ==> OutsideOk(g, t))
  }

  /** The thread that holds the lock is waiting for a completion. */
  predicate Busy<R>(g: Gate<R>)
    requires g.lock in g.k.locks
  {
    var lock := g.k.locks[g.lock];
    lock.taken && lock.owner in g.pc && g.pc[lock.owner].Waiting?
  }

  /** The request a thread has made is the last one made; once the thread has been through P, it has been
      completed. */
  predicate RequestOk<R>(g: Gate<R>, t: Tid)
    requires t in g.pc
  {
    (g.pc[t].Waiting? || g.pc[t].Leaving?) ==>
      && g.pc[t].serial == g.issued
      && (g.pc[t].Leaving? ==> g.completed == g.issued)
  }

  ghost predicate GateOk<R>(g: Gate<R>) {
    && ThreadsOk(g)
    && (forall t {:trigger RequestOk(g, t)} :: t in g.pc ==> RequestOk(g, t))
    && g.k.sems[g.sem] + (if g.active then 1 else 0) == (if Busy(g) then 1 else 0)
    && g.issued == g.completed + (if g.active then 1 else 0)
  }

  lemma InsideOk<R>(g: Gate<R>)
    requires GateOk(g) && IsRunning(g.k.ts) && g.k.ts.current in g.pc
    ensures var me := g.k.ts.current;
            if g.pc[me].Entering? then Enabled(g.k, OpAcquire(g.lock))
            else && g.k.locks[g.lock].taken && g.k.locks[g.lock].owner == me
                 && g.k.locks[g.lock].inside == {me}
                 && (forall t :: t in g.pc && Holds(g.pc[t]) ==> t == me)
                 && (if g.pc[me].Waiting? then Enabled(g.k, OpP(g.sem)) else Me(g.k).loc == Code)
  {
    assert PcOk(g, g.k.ts.current);
    assert LockOk(g.k, g.lock);
    assert forall t :: t in g.pc && Holds(g.pc[t]) ==> PcOk(g, t);
  }

  // ---------------------------------------------------------------- every step keeps it

  lemma OthersStay<R>(g: Gate<R>, r: Gate<R>)
    requires ThreadsOk(g) && KernelOk(r.k) && r.lock == g.lock && r.sem == g.sem
    requires g.lock in r.k.locks && g.sem in r.k.sems && Frames(g.k.ts, r.k.ts)
    requires forall t :: t != g.k.ts.current ==> (t in r.pc <==> t in g.pc) && (t in g.pc ==> r.pc[t] == g.pc[t])
    requires forall t :: t != g.k.ts.current ==> (t in r.k.locks[g.lock].inside <==> t in g.k.locks[g.lock].inside)
    requires var me := g.k.ts.current; if me in r.pc then PcOk(r, me) else OutsideOk(r, me)
    ensures ThreadsOk(r)
  {
    forall t | t in r.pc
      ensures PcOk(r, t)
    {
      assert t != g.k.ts.current ==> PcOk(g, t);
    }
    forall t | t !in r.pc
      ensures OutsideOk(r, t)
    {
      assert t != g.k.ts.current ==> OutsideOk(g, t);
    }
  }

  lemma KernelStep<R>(g: Gate<R>, op: Op)
    requires GateOk(g) && IsRunning(g.k.ts) && Enabled(g.k, op) && op != OpFinish
    ensures var r := Apply(g.k, op);
            && KernelOk(r) && Frames(g.k.ts, r.ts) && g.lock in r.locks && g.sem in r.sems
            && MovedTo(g.k.ts, r.ts, NextLoc(g.k, op))
  {
    assert Placed(g.k.ts, g.k.ts.current);
    StepKeepsInv(g.k, op);
    StepFrames(g.k, op);
    StepObjects(g.k, op);
  }

  lemma OutsideKeeps<R>(g: Gate<R>, op: Op)
    requires GateOk(g) && Can(g, Outside(op))
    ensures GateOk(Act(g, Outside(op)))
  {
    StepKeepsInv(g.k, op);
    StepFrames(g.k, op);
    StepObjects(g.k, op);
    var r := g.(k := Apply(g.k, op));
    OutsideThreads(g, r, op);
    assert forall t :: t in g.pc ==> RequestOk(g, t);
    assert forall t :: t in r.pc ==> RequestOk(r, t);
  }

  lemma OutsideThreads<R>(g: Gate<R>, r: Gate<R>, op: Op)
    requires GateOk(g) && Can(g, Outside(op)) && r == g.(k := r.k) && KernelOk(r.k)
    requires Frames(g.k.ts, r.k.ts)
    requires g.lock in r.k.locks && g.sem in r.k.sems && r.k.locks[g.lock] == g.k.locks[g.lock]
    requires MovedTo(g.k.ts, r.k.ts, NextLoc(g.k, op)) || g.k.ts.current !in r.k.ts.table
    requires g.k.ts.current in r.k.ts.table || NextLoc(g.k, op) == Finished
    ensures ThreadsOk(r)
  {
    var me := g.k.ts.current;
    if me in g.pc {
      assert PcOk(g, me);
    } else {
      assert OutsideOk(g, me);
    }
    OthersStay(g, r);
  }

  lemma StartKeeps<R>(g: Gate<R>, req: R)
    requires GateOk(g) && Can(g, Start(req))
    ensures GateOk(Act(g, Start(req)))
  {
    var r := Act(g, Start(req));
    assert OutsideOk(g, g.k.ts.current) && LockOk(g.k, g.lock);
    OthersStay(g, r);
    assert forall t :: t in g.pc ==> RequestOk(g, t);
    assert forall t :: t in r.pc ==> RequestOk(r, t);
  }

  lemma EnterKeeps<R>(g: Gate<R>)
    requires GateOk(g) && Can(g, Enter)
    ensures GateOk(Act(g, Enter))
  {
    InsideOk(g);
    KernelStep(g, OpAcquire(g.lock));
    Entered(g, Act(g, Enter));
  }

  lemma Entered<R>(g: Gate<R>, r: Gate<R>)
    requires GateOk(g) && Can(g, Enter) && KernelOk(r.k) && Frames(g.k.ts, r.k.ts)
    requires g.lock in r.k.locks && r.k.sems == g.k.sems && r == g.(k := r.k, pc := r.pc)
    requires var me, lock := g.k.ts.current, g.k.locks[g.lock];
             if Passes(g.k, g.lock) then
               && MovedTo(g.k.ts, r.k.ts, Code) && r.k.locks[g.lock] == Lock(true, me, lock.inside + {me})
               && r.pc == g.pc[me := Issuing(g.pc[me].req)]
             else MovedTo(g.k.ts, r.k.ts, At(LockQueue(g.lock), 0)) && r.k.locks[g.lock] == lock && r.pc == g.pc
    ensures GateOk(r)
  {
    var me := g.k.ts.current;
    assert PcOk(g, me) && LockOk(g.k, g.lock);
    OthersStay(g, r);
    assert forall t :: t in g.pc ==> RequestOk(g, t);
    assert forall t :: t in r.pc ==> RequestOk(r, t);
  }

  /** No interrupt is outstanding when the device is called. */
  lemma IssueKeeps<R>(g: Gate<R>)
    requires GateOk(g) && Can(g, Issue)
    ensures !g.active && GateOk(Act(g, Issue))
  {
    var me := g.k.ts.current;
    var r := Act(g, Issue);
    InsideOk(g);
    assert PcOk(g, me) && SemOk(g.k, g.sem);
    OthersStay(g, r);
    assert forall t :: t in g.pc ==> RequestOk(r, t);
  }

  lemma AwaitDoneKeeps<R>(g: Gate<R>)
    requires GateOk(g) && Can(g, AwaitDone)
    ensures GateOk(Act(g, AwaitDone))
  {
    InsideOk(g);
    KernelStep(g, OpP(g.sem));
    assert SemOk(g.k, g.sem);
    Awaited(g, Act(g, AwaitDone));
  }

  lemma Awaited<R>(g: Gate<R>, r: Gate<R>)
    requires GateOk(g) && Can(g, AwaitDone) && KernelOk(r.k) && Frames(g.k.ts, r.k.ts)
    requires r.k.locks == g.k.locks && g.sem in r.k.sems && r == g.(k := r.k, pc := r.pc) && 0 <= g.k.sems[g.sem]
    requires var me := g.k.ts.current;
             if g.k.sems[g.sem] == 0 then
               MovedTo(g.k.ts, r.k.ts, At(SemQueue(g.sem), 0)) && r.pc == g.pc && r.k.sems[g.sem] == 0
             else
               && MovedTo(g.k.ts, r.k.ts, Code) && r.k.sems[g.sem] == g.k.sems[g.sem] - 1
               && r.pc == g.pc[me := Leaving(g.pc[me].req, g.pc[me].serial)]
    ensures GateOk(r)
  {
    InsideOk(g);
    assert PcOk(g, g.k.ts.current);
    OthersStay(g, r);
    assert forall t :: t in g.pc ==> RequestOk(g, t);
    assert forall t :: t in r.pc ==> RequestOk(r, t);
  }

  lemma LeaveKeeps<R>(g: Gate<R>)
    requires GateOk(g) && Can(g, Leave)
    ensures GateOk(Act(g, Leave))
  {
    InsideOk(g);
    KernelStep(g, OpRelease(g.lock));
    var r := Act(g, Leave);
    assert PcOk(g, g.k.ts.current);
    OthersStay(g, r);
    assert forall t :: t in r.pc ==> RequestOk(g, t) && RequestOk(r, t);
  }

  lemma InterruptKeeps<R>(g: Gate<R>)
    requires GateOk(g) && Can(g, Interrupt)
    ensures GateOk(Act(g, Interrupt))
  {
    StepKeepsInv(g.k, OpV(g.sem));
    StepFrames(g.k, OpV(g.sem));
    var r := Act(g, Interrupt);
    var me := g.k.ts.current;
    assert me in g.pc ==> PcOk(g, me);
    assert me !in g.pc ==> OutsideOk(g, me);
    OthersStay(g, r);
    assert SemOk(g.k, g.sem);
    assert forall t :: t in g.pc ==> RequestOk(g, t);
    assert forall t :: t in g.pc ==> RequestOk(r, t);
  }

  lemma StepKeeps<R>(g: Gate<R>, a: Action<R>)
    requires GateOk(g) && Can(g, a)
    ensures GateOk(Act(g, a))
  {
    match a
    case Outside(op) => OutsideKeeps(g, op);
    case Start(req) => StartKeeps(g, req);
    case Enter => EnterKeeps(g);
    case Issue => IssueKeeps(g);
    case AwaitDone => AwaitDoneKeeps(g);
    case Interrupt => InterruptKeeps(g);
    case Leave => LeaveKeeps(g);
  }

  // ---------------------------------------------------------------- what the protocol gives its users

  /** The device is called only when no interrupt is outstanding, and at most one of an outstanding interrupt
      and a unit of the semaphore exists. */
  lemma OneAtATime<R>(g: Gate<R>)
    requires GateOk(g)
    ensures Can(g, Issue) ==> !g.active && g.k.sems[g.sem] == 0
    ensures 0 <= g.k.sems[g.sem] <= 1 && !(g.active && g.k.sems[g.sem] == 1)
  {
    assert SemOk(g.k, g.sem);
    if Can(g, Issue) {
      IssueKeeps(g);
      InsideOk(g);
    }
  }

  /** No interrupt is lost: a thread asleep on the semaphore still has its request active. */
  lemma SleeperIsPending<R>(g: Gate<R>, t: Tid)
    requires GateOk(g) && t in Waiters(g.k.ts, SemQueue(g.sem))
    ensures g.active && t in g.pc && g.pc[t].Waiting? && g.pc[t].serial == g.issued
  {
    assert QueueOk(g.k.ts, SemQueue(g.sem)) && SemOk(g.k, g.sem) && LockOk(g.k, g.lock);
    assert t in g.pc ==> PcOk(g, t) && RequestOk(g, t);
    assert t !in g.pc ==> OutsideOk(g, t);
    forall u | u in Woken(g.k.ts, SemQueue(g.sem))
      ensures u == t
    {
      assert u in g.pc ==> PcOk(g, u);
      assert u !in g.pc ==> OutsideOk(g, u);
    }
    assert t !in Woken(g.k.ts, SemQueue(g.sem));
    assert Woken(g.k.ts, SemQueue(g.sem)) == {};
  }

  /** A new gate in any kernel whose threads have not used its lock and semaphore. */
  ghost predicate Fresh<R>(g: Gate<R>) {
    && KernelOk(g.k) && g.lock in g.k.locks && g.sem in g.k.sems
    && !g.k.locks[g.lock].taken && g.k.sems[g.sem] == 0
    && g.pc == map[] && !g.active && g.issued == 0 && g.completed == 0
    && forall t :: t in g.k.ts.table && g.k.ts.table[t].loc.At? ==>
         var loc := g.k.ts.table[t].loc;
         loc.queue != LockQueue(g.lock) && loc.queue != SemQueue(g.sem)
         && (loc.queue.CondQueue? ==> loc.mutex != g.lock)
  }

  lemma FreshIsOk<R>(g: Gate<R>)
    requires Fresh(g)
    ensures GateOk(g)
  {
    assert LockOk(g.k, g.lock);
    forall t
      ensures OutsideOk(g, t)
    {
    }
  }
}

/** The way in for packets: an interrupt handler fills a one-place buffer and raises a semaphore, and one
    worker thread of the kernel waits on the semaphore and empties the buffer (IncomingPacket and
    PostalDelivery in post.cc). */
module Inlet {
  import opened Threads
  import opened Synch

  /** Where the worker is: in semaphore->P(), past it with the packet still in the buffer, past the buffer,
      or in other code that does not touch the semaphore. */
  datatype Phase = InP | PastP | AtCode | Away

  datatype Inlet = Inlet(k: Kernel, sem: Id, worker: Tid, phase: Phase, full: bool)

  predicate Names(i: Inlet, op: Op) { op == OpP(i.sem) || op == OpV(i.sem) }

  predicate CanOutside(i: Inlet, op: Op) {
    && Enabled(i.k, op) && !Names(i, op)
    && (i.k.ts.current != i.worker || op == OpYield || op == OpDispatch || op.OpV? || (i.phase.Away? && op != OpFinish))
  }

  predicate OnQueue(loc: Loc, s: Id) { loc.At? && loc.queue == SemQueue(s) }

  predicate WorkerOk(i: Inlet, loc: Loc) {
    match i.phase
    case InP => InLoop(loc, SemQueue(i.sem))
    case Away => loc != Finished && !OnQueue(loc, i.sem)
    case _ => loc == Code
  }

  /** The semaphore's value plus the worker between P and the buffer is one exactly when the buffer is full. */
  ghost predicate InletOk(i: Inlet) {
    && KernelOk(i.k) && i.sem in i.k.sems
    && i.worker in i.k.ts.table && WorkerOk(i, i.k.ts.table[i.worker].loc)
    && (forall t :: t in i.k.ts.table && t != i.worker ==> !OnQueue(i.k.ts.table[t].loc, i.sem))
    && i.k.sems[i.sem] + (if i.phase.PastP? then 1 else 0) == (if i.full then 1 else 0)
  }

  lemma OutsideKeeps(i: Inlet, op: Op)
    requires InletOk(i) && CanOutside(i, op)
    ensures InletOk(i.(k := Apply(i.k, op)))
  {
    StepKeepsInv(i.k, op);
    StepFrames(i.k, op);
    StepObjects(i.k, op);
    Moved(i, Apply(i.k, op), op);
  }

  lemma Moved(i: Inlet, r: Kernel, op: Op)
    requires InletOk(i) && CanOutside(i, op) && KernelOk(r) && Frames(i.k.ts, r.ts)
    requires i.sem in r.sems && r.sems[i.sem] == i.k.sems[i.sem]
    requires MovedTo(i.k.ts, r.ts, NextLoc(i.k, op)) || (NextLoc(i.k, op) == Finished && i.k.ts.current !in r.ts.table)
    ensures InletOk(i.(k := r))
  {
    assert Placed(i.k.ts, i.k.ts.current);
    assert !OnQueue(NextLoc(i.k, op), i.sem) || NextLoc(i.k, op) == i.k.ts.table[i.k.ts.current].loc;
  }

  /** The handler: the buffer was empty and is filled. */
  lemma ArriveKeeps(i: Inlet)
    requires InletOk(i) && !i.full
    ensures InletOk(i.(k := Apply(i.k, OpV(i.sem)), full := true))
  {
    StepKeepsInv(i.k, OpV(i.sem));
    StepFrames(i.k, OpV(i.sem));
    StepObjects(i.k, OpV(i.sem));
  }

  /** One turn of the worker's P. */
  function AfterP(i: Inlet): Inlet
    requires KernelOk(i.k) && Enabled(i.k, OpP(i.sem))
  {
    i.(k := Apply(i.k, OpP(i.sem)), phase := if i.k.sems[i.sem] == 0 then InP else PastP)
  }

  lemma PKeeps(i: Inlet)
    requires InletOk(i) && i.phase.InP? && IsRunning(i.k.ts) && i.k.ts.current == i.worker
    ensures InletOk(AfterP(i))
  {
    StepKeepsInv(i.k, OpP(i.sem));
    StepFrames(i.k, OpP(i.sem));
    StepObjects(i.k, OpP(i.sem));
    assert SemOk(i.k, i.sem);
  }

  /** A worker past P finds the buffer full, and while the semaphore has a unit the buffer is full: it is
      never filled twice. */
  lemma WorkerFindsPacket(i: Inlet)
    requires InletOk(i)
    ensures i.phase.PastP? ==> i.full
    ensures 0 <= i.k.sems[i.sem] <= 1 && (i.k.sems[i.sem] == 1 ==> i.full && !i.phase.PastP?)
  {
    assert SemOk(i.k, i.sem);
  }

  /** No arrival is lost: a worker asleep on the semaphore leaves no packet behind. */
  lemma SleeperHasNoPacket(i: Inlet)
    requires InletOk(i) && i.worker in Waiters(i.k.ts, SemQueue(i.sem))
    ensures !i.full
  {
    assert QueueOk(i.k.ts, SemQueue(i.sem)) && SemOk(i.k, i.sem);
    assert WaitsOn(i.k.ts, i.worker, SemQueue(i.sem));
    assert Woken(i.k.ts, SemQueue(i.sem)) == {};
  }
}

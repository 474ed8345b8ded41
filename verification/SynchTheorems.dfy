/** What the invariant of the kernel says about whole runs. */
module SynchTheorems {
  import opened Options
  import opened Threads
  import opened Synch

  // ---------------------------------------------------------------- runs

  /** The state at boot: one running thread, nobody waiting, free locks.  The constructor of a lock
      leaves its owner unset, so `owner` is arbitrary. */
  ghost predicate Init(k: Kernel) {
    && k.ts.table == map[k.ts.current := Thread(Running, Code, true)]
    && k.ts.ready == [] && k.ts.queues == map[] && k.ts.toBeDestroyed == None
    && (forall l :: l in k.locks ==> !k.locks[l].taken && k.locks[l].inside == {})
    && (forall s :: s in k.sems ==> 0 <= k.sems[s])
    && (forall c :: c in k.conds ==> k.conds[c] == 0)
  }

  /** Each operation of the run is enabled when its turn comes. */
  ghost predicate Runnable(k: Kernel, ops: seq<Op>)
    requires KernelOk(k)
    decreases |ops|
  {
    ops == [] || (Enabled(k, ops[0]) && (StepKeepsInv(k, ops[0]); Runnable(Apply(k, ops[0]), ops[1..])))
  }

  /** The state a run ends in; every run keeps the invariant. */
  ghost function Exec(k: Kernel, ops: seq<Op>): (r: Kernel)
    requires KernelOk(k) && Runnable(k, ops)
    ensures KernelOk(r)
    decreases |ops|
  {
    if ops == [] then k
    else StepKeepsInv(k, ops[0]); Exec(Apply(k, ops[0]), ops[1..])
  }

  /** The first step of a run, and what it leaves. */
  lemma FirstStep(k: Kernel, ops: seq<Op>) returns (k1: Kernel)
    requires KernelOk(k) && Runnable(k, ops) && ops != []
    ensures Enabled(k, ops[0]) && k1 == Apply(k, ops[0]) && KernelOk(k1)
    ensures Runnable(k1, ops[1..]) && Exec(k, ops) == Exec(k1, ops[1..])
  {
    StepKeepsInv(k, ops[0]);
    k1 := Apply(k, ops[0]);
  }

  /** The invariant holds at boot, whatever the owners of the locks are. */
  lemma InitInv(k: Kernel)
    requires Init(k)
    ensures KernelOk(k)
  {
    assert forall q :: Waiters(k.ts, q) == [];
    assert forall q :: QueueOk(k.ts, q);
    assert SystemOk(k.ts);
    forall l | l in k.locks ensures LockOk(k, l) {}
    forall s | s in k.sems ensures SemOk(k, s) {}
    forall c | c in k.conds ensures CondOk(k, c) {}
  }

  // ---------------------------------------------------------------- locks

  /** In every run at most one thread is past Acquire and not yet through Release, and it is the
      thread the lock names. */
  lemma MutualExclusion(k: Kernel, ops: seq<Op>, l: Id)
    requires KernelOk(k) && Runnable(k, ops) && l in Exec(k, ops).locks
    ensures var lock := Exec(k, ops).locks[l];
            forall t, u :: t in lock.inside && u in lock.inside ==> t == u == lock.owner
    ensures var lock := Exec(k, ops).locks[l]; lock.inside != {} <==> lock.taken
  {
    assert LockOk(Exec(k, ops), l);
  }

  /** Only the thread inside a taken lock can free it, by Release or by Wait: an extra Release or
      Wait of a stale owner never frees the lock of another thread. */
  lemma OnlyHolderFrees(k: Kernel, op: Op, l: Id)
    requires KernelOk(k) && Enabled(k, op) && l in k.locks && k.locks[l].taken
    ensures l in Apply(k, op).locks
    ensures !Apply(k, op).locks[l].taken ==>
              k.locks[l].inside == {k.ts.current} && (op == OpRelease(l) || (op.OpWait? && op.lock == l))
    ensures k.ts.current !in k.locks[l].inside && (op == OpRelease(l) || (op.OpWait? && op.lock == l)) ==>
              Apply(k, op) == k
  {
    assert LockOk(k, l);
  }

  /** No wakeup is lost: while a thread sleeps on a lock, the lock is taken or a woken thread, ready
      or running, is about to test it again; while threads sleep on a semaphore, every unit of its
      value has a woken thread to take it; a condition counts its sleepers. */
  lemma NoLostWakeup(k: Kernel, ops: seq<Op>)
    requires KernelOk(k) && Runnable(k, ops)
    ensures var r := Exec(k, ops);
            && (forall l :: l in r.locks && Waiters(r.ts, LockQueue(l)) != [] && !r.locks[l].taken ==>
                  exists t :: t in r.ts.table && r.ts.table[t].loc.At? && r.ts.table[t].loc.queue == LockQueue(l)
                              && r.ts.table[t].status in {Ready, Running})
            && (forall s :: s in r.sems && Waiters(r.ts, SemQueue(s)) != [] ==>
                  r.sems[s] <= |Woken(r.ts, SemQueue(s))|)
            && (forall c :: c in r.conds ==> r.conds[c] == |Waiters(r.ts, CondQueue(c))|)
  {
    var r := Exec(k, ops);
    forall l | l in r.locks && Waiters(r.ts, LockQueue(l)) != [] && !r.locks[l].taken
      ensures exists t :: t in r.ts.table && r.ts.table[t].loc.At? && r.ts.table[t].loc.queue == LockQueue(l)
                          && r.ts.table[t].status in {Ready, Running}
    {
      assert LockOk(r, l);
      var t :| t in Woken(r.ts, LockQueue(l));
      assert Placed(r.ts, t);
    }
    forall s | s in r.sems ensures SemOk(r, s) {}
    forall c | c in r.conds ensures CondOk(r, c) {}
  }

  // ---------------------------------------------------------------- semaphores

  ghost function Ups(ops: seq<Op>, s: Id): nat {
    if ops == [] then 0 else (if ops[0] == OpV(s) then 1 else 0) + Ups(ops[1..], s)
  }

  /** The calls of P(s) that completed: the turns of its loop that found the value positive. */
  ghost function Downs(k: Kernel, ops: seq<Op>, s: Id): nat
    requires KernelOk(k) && Runnable(k, ops)
    decreases |ops|
  {
    if ops == [] then 0
    else
      StepKeepsInv(k, ops[0]);
      (if ops[0] == OpP(s) && k.sems[s] != 0 then 1 else 0) + Downs(Apply(k, ops[0]), ops[1..], s)
  }

  /** A semaphore is its initial value plus the calls of V minus the completed calls of P. */
  lemma {:induction false} SemaphoreCounts(k: Kernel, ops: seq<Op>, s: Id)
    requires KernelOk(k) && Runnable(k, ops) && s in k.sems
    ensures s in Exec(k, ops).sems
    ensures 0 <= Exec(k, ops).sems[s] == k.sems[s] + Ups(ops, s) - Downs(k, ops, s)
    decreases |ops|
  {
    if ops == [] {
      assert SemOk(k, s);
    } else {
      StepKeepsInv(k, ops[0]);
      SemaphoreCounts(Apply(k, ops[0]), ops[1..], s);
    }
  }

  // ---------------------------------------------------------------- threads

  datatype Place = Cpu | ReadyList | WaitingIn(queue: Queue)

  predicate IsAt(s: System, t: Tid, p: Place) {
    match p
    case Cpu => IsRunning(s) && t == s.current
    case ReadyList => t in s.ready
    case WaitingIn(q) => t in Waiters(s, q)
  }

  /** Every thread that was forked and has not finished is in exactly one place, once, and its
      status says which; every other thread is in none. */
  lemma ExactlyOnePlace(s: System, t: Tid)
    requires SystemOk(s) && t in s.table
    ensures var th := s.table[t];
            if th.status == JustCreated || th.loc == Finished then forall p :: !IsAt(s, t, p)
            else exists p :: && IsAt(s, t, p) && (forall p' :: IsAt(s, t, p') ==> p' == p)
                             && th.status == (match p case Cpu => Running case ReadyList => Ready case WaitingIn(_) => Blocked)
    ensures multiset(s.ready)[t] <= 1 && forall q :: multiset(Waiters(s, q))[t] <= 1
  {
    assert Placed(s, t);
    forall q | t in Waiters(s, q)
      ensures WaitsOn(s, t, q)
    {
      assert QueueOk(s, q);
    }
    var th := s.table[t];
    if th.status == Running {
      assert IsAt(s, t, Cpu);
    } else if th.status == Ready {
      assert IsAt(s, t, ReadyList);
    } else if th.status == Blocked && th.loc != Finished {
      assert IsAt(s, t, WaitingIn(th.loc.queue));
    }
    NoDupOnce(s.ready, t);
    forall q
      ensures multiset(Waiters(s, q))[t] <= 1
    {
      assert QueueOk(s, q);
      NoDupOnce(Waiters(s, q), t);
    }
  }

  lemma {:induction false} NoDupOnce(ts: seq<Tid>, t: Tid)
    requires NoDup(ts)
    ensures multiset(ts)[t] <= 1
  {
    if ts != [] {
      assert ts == [ts[0]] + ts[1..];
      NoDupOnce(ts[1..], t);
    }
  }

  lemma UnknownIsNowhere(s: System, t: Tid)
    requires SystemOk(s) && t !in s.table
    ensures forall p :: !IsAt(s, t, p)
  {
    forall q
      ensures t !in Waiters(s, q)
    {
      assert QueueOk(s, q);
    }
  }

  ghost function Done(s: System): set<Tid> {
    set t | t in s.table && s.table[t].loc == Finished
  }

  /** Between s and r nobody finished, and nobody was destroyed but the thread waiting for it. */
  ghost predicate Collects(s: System, r: System) {
    || (r.toBeDestroyed == s.toBeDestroyed && Done(r) == Done(s) && s.table.Keys <= r.table.Keys)
    || (s.toBeDestroyed.Some? && r.toBeDestroyed.None? && Done(r) == Done(s) - {s.toBeDestroyed.value}
        && s.table.Keys - {s.toBeDestroyed.value} <= r.table.Keys)
  }

  lemma ScheduleCollects(s: System)
    requires SystemOk(s) && !IsRunning(s)
    ensures Collects(s, Schedule(s))
  {
    if s.ready != [] {
      assert Placed(s, s.ready[0]);
    }
  }

  lemma {:induction false} WakeManyCollects(s: System, q: Queue, n: nat)
    requires SystemOk(s)
    ensures Collects(s, WakeMany(s, q, n))
    decreases n
  {
    if n > 0 {
      WakeKeepsInv(s, q);
      WakeCollects(s, q);
      WakeManyCollects(Wake(s, q), q, n - 1);
    }
  }

  lemma WakeCollects(s: System, q: Queue)
    requires SystemOk(s)
    ensures var r := (WakeKeepsInv(s, q); Wake(s, q));
            r.toBeDestroyed == s.toBeDestroyed && Done(r) == Done(s) && s.table.Keys <= r.table.Keys
  {
    WakeKeepsInv(s, q);
  }

  lemma SleepCollects(s: System, q: Queue, mutex: Id)
    requires SystemOk(s) && IsRunning(s) && InLoop(s.table[s.current].loc, q)
    ensures Collects(s, (EnqueueKeepsInv(s, q, mutex); Schedule(Enqueue(s, q, mutex))))
  {
    EnqueueKeepsInv(s, q, mutex);
    ScheduleCollects(Enqueue(s, q, mutex));
  }

  lemma WaitCollects(s: System, c: Id, l: Id)
    requires SystemOk(s) && IsRunning(s) && s.table[s.current].loc == Code
    ensures Collects(s, WaitAndRelease(s, c, l))
  {
    EnqueueKeepsInv(s, CondQueue(c), l);
    var s1 := Enqueue(s, CondQueue(c), l);
    WakeKeepsInv(s1, LockQueue(l));
    WakeCollects(s1, LockQueue(l));
    ScheduleCollects(Wake(s1, LockQueue(l)));
  }

  lemma YieldCollects(s: System)
    requires SystemOk(s) && IsRunning(s)
    ensures Collects(s, Yield(s))
  {
    if s.ready != [] {
      assert Placed(s, s.ready[0]) && Placed(s, s.current);
    }
  }

  lemma StepCollects(k: Kernel, op: Op)
    requires KernelOk(k) && Enabled(k, op) && op != OpFinish
    ensures Collects(k.ts, Apply(k, op).ts)
  {
    match op
    case OpAcquire(l) =>
      if k.locks[l].owner != k.ts.current && k.locks[l].taken { SleepCollects(k.ts, LockQueue(l), 0); }
    case OpRelease(l) => WakeCollects(k.ts, LockQueue(l));
    case OpP(s) =>
      if k.sems[s] == 0 { SleepCollects(k.ts, SemQueue(s), 0); }
    case OpV(s) => WakeCollects(k.ts, SemQueue(s));
    case OpWait(c, l) =>
      if k.locks[l].owner == k.ts.current { WaitCollects(k.ts, c, l); }
    case OpSignal(c, l) => WakeCollects(k.ts, CondQueue(c));
    case OpBroadcast(c, l) =>
      if k.conds[c] > 0 { WakeManyCollects(k.ts, CondQueue(c), k.conds[c]); }
    case OpYield => YieldCollects(k.ts);
    case OpDispatch => ScheduleCollects(k.ts);
    case _ =>
  }

  /** Finishing makes the current thread the one to destroy; dispatching an older thread then
      destroys it at once. */
  lemma FinishCollects(s: System)
    requires SystemOk(s) && IsRunning(s) && s.table[s.current].loc == Code
    ensures var r := Finish(s);
            || (r.toBeDestroyed == Some(s.current) && Done(r) == Done(s) + {s.current} && s.table.Keys <= r.table.Keys)
            || (r.toBeDestroyed.None? && Done(r) == Done(s) && s.table.Keys - {s.current} <= r.table.Keys)
  {
    FinishKeepsInv(s);
    assert Placed(s, s.current);
    assert s.ready != [] ==> Placed(s, s.ready[0]);
  }

  /** A thread is destroyed only when it has finished and is in no place. */
  lemma DestroyedIsNowhere(k: Kernel, op: Op, t: Tid)
    requires KernelOk(k) && Enabled(k, op) && t in k.ts.table && t !in Apply(k, op).ts.table
    ensures k.ts.table[t].loc == Finished || (op == OpFinish && t == k.ts.current)
    ensures forall p :: !IsAt(Apply(k, op).ts, t, p)
  {
    StepKeepsInv(k, op);
    UnknownIsNowhere(Apply(k, op).ts, t);
    if op == OpFinish {
      FinishCollects(k.ts);
    } else {
      StepCollects(k, op);
    }
  }

  /** Every finished thread that still exists is the one waiting to be destroyed. */
  ghost predicate NoOrphans(k: Kernel) {
    forall t :: t in Done(k.ts) ==> k.ts.toBeDestroyed == Some(t)
  }

  /** Destruction is deferred in a single variable, and a newly forked thread does not collect it, so
      a thread can finish while another one still waits to be destroyed, which then never is.  That is
      the only way to lose one. */
  lemma OrphanedExactlyBySecondFinish(k: Kernel, op: Op)
    requires KernelOk(k) && Enabled(k, op) && NoOrphans(k)
    ensures NoOrphans(Apply(k, op)) <==> !(op == OpFinish && k.ts.toBeDestroyed.Some?)
  {
    if op == OpFinish {
      FinishCollects(k.ts);
      if k.ts.toBeDestroyed.Some? {
        assert k.ts.toBeDestroyed.value in Done(k.ts) && k.ts.toBeDestroyed.value in Done(Apply(k, op).ts);
        assert Placed(k.ts, k.ts.current);
      }
    } else {
      StepCollects(k, op);
    }
  }

  /** An orphan is never collected. */
  lemma OrphansStay(k: Kernel, op: Op)
    requires KernelOk(k) && Enabled(k, op) && !NoOrphans(k)
    ensures !NoOrphans(Apply(k, op))
  {
    var t :| t in Done(k.ts) && k.ts.toBeDestroyed != Some(t);
    if op == OpFinish {
      FinishCollects(k.ts);
    } else {
      StepCollects(k, op);
    }
    assert t in Done(Apply(k, op).ts);
  }

  /** Somewhere in the run a thread finishes while another still waits to be destroyed. */
  ghost predicate SecondFinish(k: Kernel, ops: seq<Op>)
    requires KernelOk(k) && Runnable(k, ops)
    decreases |ops|
  {
    && ops != []
    && ((ops[0] == OpFinish && k.ts.toBeDestroyed.Some?)
        || (StepKeepsInv(k, ops[0]); SecondFinish(Apply(k, ops[0]), ops[1..])))
  }

  /** A run leaves a thread behind that is never destroyed exactly when a second thread finishes in time. */
  lemma {:induction false} OrphansExactlyAfterSecondFinish(k: Kernel, ops: seq<Op>)
    requires KernelOk(k) && Runnable(k, ops)
    ensures NoOrphans(Exec(k, ops)) <==> NoOrphans(k) && !SecondFinish(k, ops)
    decreases |ops|
  {
    if ops != [] {
      StepKeepsInv(k, ops[0]);
      if NoOrphans(k) {
        OrphanedExactlyBySecondFinish(k, ops[0]);
      } else {
        OrphansStay(k, ops[0]);
      }
      OrphansExactlyAfterSecondFinish(Apply(k, ops[0]), ops[1..]);
    }
  }

  lemma Prepend(k: Kernel, op: Op, ops: seq<Op>)
    requires KernelOk(k) && Enabled(k, op) && KernelOk(Apply(k, op)) && Runnable(Apply(k, op), ops)
    ensures Runnable(k, [op] + ops) && Exec(k, [op] + ops) == Exec(Apply(k, op), ops)
  {
    assert ([op] + ops)[1..] == ops;
  }

  /** A kernel without objects in which the threads 1 and 2 have been forked and nobody else has run. */
  function TwoForked(): Kernel {
    Kernel(System(0, map[0 := Thread(Running, Code, true), 1 := Thread(Ready, Code, false), 2 := Thread(Ready, Code, false)],
                  [1, 2], map[], None, 0), map[], map[], map[])
  }

  function Alone(): Kernel {
    Kernel(System(0, map[0 := Thread(Running, Code, true)], [], map[], None, 0), map[], map[], map[])
  }

  /** Thread 1 runs, then has finished, then 2 has as well. */
  function OneRuns(): Kernel {
    Kernel(System(1, map[0 := Thread(Ready, Code, true), 1 := Thread(Running, Code, true), 2 := Thread(Ready, Code, false)],
                  [2, 0], map[], None, 1), map[], map[], map[])
  }

  function TwoRuns(): Kernel {
    Kernel(System(2, map[0 := Thread(Ready, Code, true), 1 := Thread(Blocked, Finished, true), 2 := Thread(Running, Code, true)],
                  [0], map[], Some(1), 2), map[], map[], map[])
  }

  /** Creating and forking a thread puts it last on the ready list. */
  lemma ForkNew(k: Kernel, t: Tid, rest: seq<Op>)
    requires KernelOk(k) && IsRunning(k.ts) && t !in k.ts.table
    requires var r := Forked(k, t); KernelOk(r) && Runnable(r, rest)
    ensures Runnable(k, [OpCreate(t)] + ([OpFork(t)] + rest))
    ensures Exec(k, [OpCreate(t)] + ([OpFork(t)] + rest)) == Exec(Forked(k, t), rest)
  {
    StepKeepsInv(k, OpCreate(t));
    var k1 := Apply(k, OpCreate(t));
    assert Apply(k1, OpFork(t)) == Forked(k, t);
    Prepend(k1, OpFork(t), rest);
    Prepend(k, OpCreate(t), [OpFork(t)] + rest);
  }

  function Forked(k: Kernel, t: Tid): Kernel {
    k.(ts := k.ts.(table := k.ts.table[t := Thread(Ready, Code, false)], ready := k.ts.ready + [t]))
  }

  lemma ForkTwo(rest: seq<Op>)
    requires KernelOk(Alone()) && KernelOk(TwoForked()) && Runnable(TwoForked(), rest)
    ensures Runnable(Alone(), [OpCreate(1), OpFork(1), OpCreate(2), OpFork(2)] + rest)
    ensures Exec(Alone(), [OpCreate(1), OpFork(1), OpCreate(2), OpFork(2)] + rest) == Exec(TwoForked(), rest)
  {
    var k1 := Forked(Alone(), 1);
    OneForkedOk();
    assert Forked(k1, 2) == TwoForked();
    ForkNew(k1, 2, rest);
    ForkNew(Alone(), 1, [OpCreate(2)] + ([OpFork(2)] + rest));
    assert [OpCreate(1)] + ([OpFork(1)] + ([OpCreate(2)] + ([OpFork(2)] + rest)))
        == [OpCreate(1), OpFork(1), OpCreate(2), OpFork(2)] + rest;
  }

  lemma OneForkedOk()
    ensures KernelOk(Forked(Alone(), 1))
  {
    var s := Forked(Alone(), 1).ts;
    assert Placed(s, 0) && Placed(s, 1);
    assert forall q :: Waiters(s, q) == [];
  }

  lemma YieldToOne()
    requires KernelOk(TwoForked())
    ensures Enabled(TwoForked(), OpYield) && Apply(TwoForked(), OpYield) == OneRuns() && KernelOk(OneRuns())
  {
    StepKeepsInv(TwoForked(), OpYield);
    assert Apply(TwoForked(), OpYield) == OneRuns();
  }

  lemma OneFinishes()
    requires KernelOk(OneRuns())
    ensures Enabled(OneRuns(), OpFinish) && Apply(OneRuns(), OpFinish) == TwoRuns() && KernelOk(TwoRuns())
  {
    StepKeepsInv(OneRuns(), OpFinish);
    assert Apply(OneRuns(), OpFinish) == TwoRuns();
  }

  lemma TwoFinishes()
    requires KernelOk(TwoRuns())
    ensures Enabled(TwoRuns(), OpFinish) && !NoOrphans(Apply(TwoRuns(), OpFinish)) && KernelOk(Apply(TwoRuns(), OpFinish))
  {
    StepKeepsInv(TwoRuns(), OpFinish);
    assert NoOrphans(TwoRuns());
    OrphanedExactlyBySecondFinish(TwoRuns(), OpFinish);
  }

  lemma FinishTwo(k: Kernel, k1: Kernel, k2: Kernel)
    requires KernelOk(k) && Enabled(k, OpYield) && k1 == Apply(k, OpYield)
    requires KernelOk(k1) && Enabled(k1, OpFinish) && k2 == Apply(k1, OpFinish)
    requires KernelOk(k2) && Enabled(k2, OpFinish) && KernelOk(Apply(k2, OpFinish))
    ensures Runnable(k, [OpYield, OpFinish, OpFinish])
    ensures Exec(k, [OpYield, OpFinish, OpFinish]) == Apply(k2, OpFinish)
  {
    Prepend(k2, OpFinish, []);
    Prepend(k1, OpFinish, [OpFinish] + []);
    Prepend(k, OpYield, [OpFinish] + ([OpFinish] + []));
    assert [OpYield] + ([OpFinish] + ([OpFinish] + [])) == [OpYield, OpFinish, OpFinish];
  }

  /** It happens: two threads forked before the first of them runs, each finishing at once. */
  lemma OrphanIsReachable()
    ensures Init(Alone()) && KernelOk(Alone())
    ensures var ops := [OpCreate(1), OpFork(1), OpCreate(2), OpFork(2)] + [OpYield, OpFinish, OpFinish];
            Runnable(Alone(), ops) && !NoOrphans(Exec(Alone(), ops))
  {
    InitInv(Alone());
    TwoForkedOk();
    YieldToOne();
    OneFinishes();
    TwoFinishes();
    FinishTwo(TwoForked(), OneRuns(), TwoRuns());
    ForkTwo([OpYield, OpFinish, OpFinish]);
  }

  lemma TwoForkedOk()
    ensures KernelOk(TwoForked())
  {
    var s := TwoForked().ts;
    assert Placed(s, 0) && Placed(s, 1) && Placed(s, 2);
    assert forall q :: Waiters(s, q) == [];
  }

  // ---------------------------------------------------------------- turns

  /** From s to r the ready list gained threads at its end, and each dispatch took its head. */
  ghost predicate Queued(s: System, r: System, added: seq<Tid>) {
    var line := s.ready + added;
    || (r.switches == s.switches && r.ready == line && r.current == s.current)
    || (r.switches == s.switches + 1 && line != [] && r.ready == line[1..] && r.current == line[0])
  }

  lemma {:induction false} WakeManyQueues(s: System, q: Queue, n: nat) returns (added: seq<Tid>)
    requires SystemOk(s)
    ensures Queued(s, WakeMany(s, q, n), added) && WakeMany(s, q, n).switches == s.switches
    decreases n
  {
    added := [];
    if n > 0 {
      WakeKeepsInv(s, q);
      var more := WakeManyQueues(Wake(s, q), q, n - 1);
      added := Wake(s, q).ready[|s.ready|..] + more;
    }
  }

  lemma WakeQueues(s: System, q: Queue) returns (added: seq<Tid>)
    requires SystemOk(s)
    ensures Queued(s, (WakeKeepsInv(s, q); Wake(s, q)), added)
  {
    WakeKeepsInv(s, q);
    added := if Waiters(s, q) == [] then [] else [Waiters(s, q)[0]];
  }

  lemma WaitQueues(s: System, c: Id, l: Id) returns (added: seq<Tid>)
    requires SystemOk(s) && IsRunning(s) && s.table[s.current].loc == Code
    ensures Queued(s, WaitAndRelease(s, c, l), added)
  {
    EnqueueKeepsInv(s, CondQueue(c), l);
    added := WakeQueues(Enqueue(s, CondQueue(c), l), LockQueue(l));
  }

  lemma StepQueues(k: Kernel, op: Op) returns (added: seq<Tid>)
    requires KernelOk(k) && Enabled(k, op)
    ensures Queued(k.ts, Apply(k, op).ts, added)
  {
    added := [];
    if Apply(k, op) == k { return; }
    match op
    case OpRelease(l) => added := WakeQueues(k.ts, LockQueue(l));
    case OpV(m) => added := WakeQueues(k.ts, SemQueue(m));
    case OpSignal(c, l) => added := WakeQueues(k.ts, CondQueue(c));
    case OpWait(c, l) => added := WaitQueues(k.ts, c, l);
    case OpBroadcast(c, l) => added := WakeManyQueues(k.ts, CondQueue(c), k.conds[c]);
    case OpYield => if k.ts.ready != [] { added := [k.ts.current]; }
    case OpFork(t) => added := [t];
    case _ =>
  }

  /** One operation moves a ready thread up by the number of dispatches in it, none or one. */
  lemma StepMovesUp(k: Kernel, op: Op, i: nat)
    requires KernelOk(k) && Enabled(k, op) && i < |k.ts.ready|
    ensures var r := Apply(k, op).ts;
            && k.ts.switches <= r.switches <= k.ts.switches + 1
            && var n := r.switches - k.ts.switches;
               if n <= i then i - n < |r.ready| && r.ready[i - n] == k.ts.ready[i]
               else r.current == k.ts.ready[i]
  {
    var added := StepQueues(k, op);
  }

  /** First come, first served: after n dispatches, the thread that had i >= n threads ahead of it
      in the ready list has i - n ahead of it. */
  lemma {:induction false} ReadyListMovesUp(k: Kernel, ops: seq<Op>, i: nat)
    requires KernelOk(k) && Runnable(k, ops) && i < |k.ts.ready|
    ensures var r := Exec(k, ops).ts;
            && k.ts.switches <= r.switches
            && var n := r.switches - k.ts.switches;
               n <= i ==> i - n < |r.ready| && r.ready[i - n] == k.ts.ready[i]
    decreases |ops|
  {
    if ops != [] {
      var k1 := FirstStep(k, ops);
      StepMovesUp(k, ops[0], i);
      SwitchesGrow(k1, ops[1..]);
      if k1.ts.switches - k.ts.switches <= i {
        ReadyListMovesUp(k1, ops[1..], i - (k1.ts.switches - k.ts.switches));
      }
    }
  }

  lemma {:induction false} SwitchesGrow(k: Kernel, ops: seq<Op>)
    requires KernelOk(k) && Runnable(k, ops)
    ensures k.ts.switches <= Exec(k, ops).ts.switches
    decreases |ops|
  {
    if ops != [] {
      var added := StepQueues(k, ops[0]);
      var k1 := FirstStep(k, ops);
      SwitchesGrow(k1, ops[1..]);
    }
  }

  /** A ready thread with i threads ahead of it runs at the (i+1)-th dispatch. */
  lemma DispatchedInTurn(k: Kernel, ops: seq<Op>, op: Op, i: nat)
    requires KernelOk(k) && Runnable(k, ops) && i < |k.ts.ready|
    requires Enabled(Exec(k, ops), op) && Exec(k, ops).ts.switches == k.ts.switches + i
    requires Apply(Exec(k, ops), op).ts.switches == k.ts.switches + i + 1
    ensures Apply(Exec(k, ops), op).ts.current == k.ts.ready[i]
  {
    ReadyListMovesUp(k, ops, i);
    StepMovesUp(Exec(k, ops), op, 0);
  }
}

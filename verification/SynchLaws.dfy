/** What each operation of the kernel does, in terms of who runs, who is ready and who waits (synch.cc,
    thread.cc): the queues are served in order and nobody else moves. */
module SynchLaws {
  import opened Options
  import opened Threads
  import opened Synch

  /** From s to r the threads of `woken`, and no others, left their wait queue for the end of the ready list. */
  ghost predicate Readied(s: System, r: System, q: Queue, woken: seq<Tid>) {
    && r.current == s.current && r.ready == s.ready + woken
    && Waiters(s, q) == woken + Waiters(r, q)
    && (forall p :: p != q ==> Waiters(r, p) == Waiters(s, p))
    && r.table.Keys == s.table.Keys
    && (forall t :: t in s.table ==> r.table[t] == if t in woken then s.table[t].(status := Ready) else s.table[t])
  }

  /** The first of a line, if there is one. */
  function FirstOf(ts: seq<Tid>): seq<Tid> { if ts == [] then [] else [ts[0]] }

  lemma WakeReadies(s: System, q: Queue)
    requires SystemOk(s)
    ensures var r := (WakeKeepsInv(s, q); Wake(s, q)); SystemOk(r) && Readied(s, r, q, FirstOf(Waiters(s, q)))
  {
    WakeKeepsInv(s, q);
  }

  lemma {:induction false} WakeManyReadies(s: System, q: Queue, n: nat)
    requires SystemOk(s) && n <= |Waiters(s, q)|
    ensures Readied(s, WakeMany(s, q, n), q, Waiters(s, q)[..n])
    decreases n
  {
    if n > 0 {
      WakeReadies(s, q);
      WakeKeepsInv(s, q);
      var m := Wake(s, q);
      WakeManyReadies(m, q, n - 1);
      ReadiedChain(s, m, WakeMany(s, q, n), q, Waiters(s, q)[0], Waiters(m, q)[..n - 1]);
      assert Waiters(s, q)[..n] == [Waiters(s, q)[0]] + Waiters(m, q)[..n - 1];
    }
  }

  lemma ReadiedChain(s: System, m: System, r: System, q: Queue, first: Tid, rest: seq<Tid>)
    requires Readied(s, m, q, [first]) && Readied(m, r, q, rest)
    ensures Readied(s, r, q, [first] + rest)
  {
    assert s.ready + [first] + rest == s.ready + ([first] + rest);
  }

  /** Broadcast by the owner of the lock readies every sleeper, in order, and leaves none; by anybody else it
      does nothing. */
  lemma BroadcastReadiesAll(k: Kernel, c: Id, l: Id)
    requires KernelOk(k) && Enabled(k, OpBroadcast(c, l))
    ensures var r := Apply(k, OpBroadcast(c, l));
            if k.locks[l].owner == k.ts.current then
              && Readied(k.ts, r.ts, CondQueue(c), Waiters(k.ts, CondQueue(c)))
              && Waiters(r.ts, CondQueue(c)) == []
              && r.conds == k.conds[c := 0] && r.locks == k.locks && r.sems == k.sems
            else r == k
  {
    assert CondOk(k, c);
    if k.locks[l].owner == k.ts.current {
      var q := CondQueue(c);
      assert Waiters(k.ts, q)[..k.conds[c]] == Waiters(k.ts, q);
      WakeManyReadies(k.ts, q, k.conds[c]);
    }
  }

  /** Signal by the owner of the lock readies the first sleeper, if there is one. */
  lemma SignalReadiesFirst(k: Kernel, c: Id, l: Id)
    requires KernelOk(k) && Enabled(k, OpSignal(c, l))
    ensures var r, q := Apply(k, OpSignal(c, l)), CondQueue(c);
            if k.locks[l].owner == k.ts.current && Waiters(k.ts, q) != [] then
              && Readied(k.ts, r.ts, q, [Waiters(k.ts, q)[0]])
              && r.conds == k.conds[c := k.conds[c] - 1] && r.locks == k.locks && r.sems == k.sems
            else r == k
  {
    assert CondOk(k, c);
    WakeReadies(k.ts, CondQueue(c));
  }

  /** Release by the owner frees the lock and readies the first waiter; by anybody else it does nothing. */
  lemma ReleaseReadiesFirst(k: Kernel, l: Id)
    requires KernelOk(k) && Enabled(k, OpRelease(l))
    ensures var r, q := Apply(k, OpRelease(l)), LockQueue(l);
            if k.locks[l].owner == k.ts.current then
              && Readied(k.ts, r.ts, q, FirstOf(Waiters(k.ts, q)))
              && r.locks == k.locks[l := Lock(false, k.ts.current, {})] && r.sems == k.sems && r.conds == k.conds
            else r == k
  {
    assert LockOk(k, l) && k.locks[l].inside - {k.locks[l].owner} == {};
    WakeReadies(k.ts, LockQueue(l));
  }

  /** V adds one unit and readies the first waiter. */
  lemma VReadiesFirst(k: Kernel, s: Id)
    requires KernelOk(k) && Enabled(k, OpV(s))
    ensures var r, q := Apply(k, OpV(s)), SemQueue(s);
            && Readied(k.ts, r.ts, q, FirstOf(Waiters(k.ts, q)))
            && r.sems == k.sems[s := k.sems[s] + 1] && r.locks == k.locks && r.conds == k.conds
  {
    WakeReadies(k.ts, SemQueue(s));
  }

  // ---------------------------------------------------------------- going to sleep

  /** From s to r the running thread stopped; the head of the ready list, with `woken` joined at its end, runs
      next, or nobody does. */
  ghost predicate Dispatched(s: System, r: System, woken: seq<Tid>) {
    var line := s.ready + woken;
    if line == [] then r.current == s.current && r.ready == [] && !IsRunning(r)
    else r.current == line[0] && r.ready == line[1..] && IsRunning(r)
  }

  /** The thread sleeps at the end of the queue q, and the other queues but `but` are as they were. */
  ghost predicate Joined(s: System, r: System, q: Queue, mutex: Id, but: Queue) {
    && Waiters(r, q) == Waiters(s, q) + [s.current]
    && (forall p :: p != q && p != but ==> Waiters(r, p) == Waiters(s, p))
    && s.current in r.table && r.table[s.current].status == Blocked && r.table[s.current].loc == At(q, mutex)
  }

  lemma SleepJoins(s: System, q: Queue, mutex: Id)
    requires SystemOk(s) && IsRunning(s) && InLoop(s.table[s.current].loc, q)
    ensures var r := (EnqueueKeepsInv(s, q, mutex); Schedule(Enqueue(s, q, mutex)));
            Joined(s, r, q, mutex, q) && Dispatched(s, r, [])
  {
    EnqueueKeepsInv(s, q, mutex);
    assert Placed(s, s.current);
    ScheduleDispatches(Enqueue(s, q, mutex));
    assert s.ready + [] == s.ready;
  }

  /** Dispatching moves nobody but the thread dispatched and the one destroyed. */
  lemma ScheduleDispatches(s: System)
    requires SystemOk(s) && !IsRunning(s)
    ensures var r := Schedule(s);
            && (forall p :: Waiters(r, p) == Waiters(s, p))
            && (forall t :: t in s.table && s.table[t].status == Blocked && s.table[t].loc.At? ==>
                  t in r.table && r.table[t] == s.table[t])
            && if s.ready == [] then r == s else r.current == s.ready[0] && r.ready == s.ready[1..] && IsRunning(r)
  {
    if s.ready != [] {
      RunNextKeepsInv(s);
      assert Placed(s, s.ready[0]);
    }
  }

  /** A turn of Acquire takes a lock that is free or the caller's own; otherwise the caller goes to sleep at
      the end of the lock's queue. */
  lemma AcquireTakesOrSleeps(k: Kernel, l: Id)
    requires KernelOk(k) && Enabled(k, OpAcquire(l))
    ensures var r, me, q := Apply(k, OpAcquire(l)), k.ts.current, LockQueue(l);
            && r.sems == k.sems && r.conds == k.conds
            && if !k.locks[l].taken || k.locks[l].owner == me then
                 && r.locks == k.locks[l := Lock(true, me, {me})]
                 && r.ts == k.ts.(table := k.ts.table[me := k.ts.table[me].(loc := Code)])
               else r.locks == k.locks && Joined(k.ts, r.ts, q, 0, q) && Dispatched(k.ts, r.ts, [])
  {
    assert LockOk(k, l);
    if k.locks[l].taken && k.locks[l].owner != k.ts.current {
      SleepJoins(k.ts, LockQueue(l), 0);
    } else {
      assert k.locks[l].inside + {k.ts.current} == {k.ts.current};
    }
  }

  /** A turn of P takes a unit if there is one; otherwise the caller goes to sleep at the end of the queue. */
  lemma PTakesOrSleeps(k: Kernel, s: Id)
    requires KernelOk(k) && Enabled(k, OpP(s))
    ensures var r, me, q := Apply(k, OpP(s)), k.ts.current, SemQueue(s);
            && r.locks == k.locks && r.conds == k.conds
            && if k.sems[s] > 0 then
                 && r.sems == k.sems[s := k.sems[s] - 1]
                 && r.ts == k.ts.(table := k.ts.table[me := k.ts.table[me].(loc := Code)])
               else r.sems == k.sems && Joined(k.ts, r.ts, q, 0, q) && Dispatched(k.ts, r.ts, [])
  {
    assert SemOk(k, s);
    if k.sems[s] == 0 {
      SleepJoins(k.ts, SemQueue(s), 0);
    }
  }

  /** Wait by the owner of the lock: the caller goes to sleep at the end of the condition's queue, the lock is
      free, its first waiter is ready and the sleeper is counted. By anybody else it does nothing. */
  lemma WaitSleepsAndReleases(k: Kernel, c: Id, l: Id)
    requires KernelOk(k) && Enabled(k, OpWait(c, l))
    ensures var r, me, q := Apply(k, OpWait(c, l)), k.ts.current, LockQueue(l);
            if k.locks[l].owner == me then
              && r.locks == k.locks[l := Lock(false, me, {})] && r.sems == k.sems && r.conds == k.conds[c := k.conds[c] + 1]
              && Joined(k.ts, r.ts, CondQueue(c), l, q)
              && Waiters(k.ts, q) == FirstOf(Waiters(k.ts, q)) + Waiters(r.ts, q)
              && Dispatched(k.ts, r.ts, FirstOf(Waiters(k.ts, q)))
            else r == k
  {
    assert LockOk(k, l) && k.locks[l].inside - {k.locks[l].owner} == {};
    if k.locks[l].owner == k.ts.current {
      WaitSystem(k.ts, c, l);
    }
  }

  lemma WaitSystem(s: System, c: Id, l: Id)
    requires SystemOk(s) && IsRunning(s) && s.table[s.current].loc == Code
    ensures var r, q := WaitAndRelease(s, c, l), LockQueue(l);
            && Joined(s, r, CondQueue(c), l, q) && Waiters(s, q) == FirstOf(Waiters(s, q)) + Waiters(r, q)
            && Dispatched(s, r, FirstOf(Waiters(s, q)))
  {
    EnqueueKeepsInv(s, CondQueue(c), l);
    assert Placed(s, s.current);
    var s1 := Enqueue(s, CondQueue(c), l);
    WakeReadies(s1, LockQueue(l));
    WakeKeepsInv(s1, LockQueue(l));
    assert QueueOk(s1, LockQueue(l)) && QueueOk(s1, CondQueue(c));
    NotAwake(s1, c, l);
    WaitParts(s, s1, Wake(s1, LockQueue(l)), c, l);
  }

  /** The caller sleeps on the condition, so it does not wait for the lock. */
  lemma NotAwake(s: System, c: Id, l: Id)
    requires SystemOk(s) && s.table[s.current].status == Blocked && s.table[s.current].loc == At(CondQueue(c), l)
    ensures s.current !in Waiters(s, LockQueue(l))
  {
    assert QueueOk(s, LockQueue(l));
  }

  lemma WaitParts(s: System, s1: System, s2: System, c: Id, l: Id)
    requires s.current in s.table && s1 == Enqueue(s, CondQueue(c), l) && s1.current !in Waiters(s1, LockQueue(l))
    requires Readied(s1, s2, LockQueue(l), FirstOf(Waiters(s1, LockQueue(l)))) && SystemOk(s2) && !IsRunning(s2)
    ensures var r, q := Schedule(s2), LockQueue(l);
            && Joined(s, r, CondQueue(c), l, q) && Waiters(s, q) == FirstOf(Waiters(s, q)) + Waiters(r, q)
            && Dispatched(s, r, FirstOf(Waiters(s, q)))
  {
    ScheduleDispatches(s2);
    assert s1.ready == s.ready && Joined(s, s1, CondQueue(c), l, LockQueue(l));
    assert Waiters(s1, LockQueue(l)) == Waiters(s, LockQueue(l));
    JoinedStays(s, s1, s2, Schedule(s2), c, l);
  }

  lemma JoinedStays(s: System, s1: System, s2: System, r: System, c: Id, l: Id)
    requires Joined(s, s1, CondQueue(c), l, LockQueue(l)) && s1.current == s.current && s.current !in Waiters(s1, LockQueue(l))
    requires s1.ready == s.ready && Waiters(s1, LockQueue(l)) == Waiters(s, LockQueue(l))
    requires Readied(s1, s2, LockQueue(l), FirstOf(Waiters(s1, LockQueue(l))))
    requires forall p :: Waiters(r, p) == Waiters(s2, p)
    requires s.current in s2.table && s2.table[s.current].status == Blocked && s2.table[s.current].loc.At? ==>
               s.current in r.table && r.table[s.current] == s2.table[s.current]
    requires if s2.ready == [] then r == s2 && !IsRunning(s2)
             else r.current == s2.ready[0] && r.ready == s2.ready[1..] && IsRunning(r)
    ensures && Joined(s, r, CondQueue(c), l, LockQueue(l)) && Dispatched(s, r, FirstOf(Waiters(s, LockQueue(l))))
            && Waiters(s, LockQueue(l)) == FirstOf(Waiters(s, LockQueue(l))) + Waiters(r, LockQueue(l))
  {
  }

  // ---------------------------------------------------------------- threads

  /** Yield sends the caller to the end of the ready list and runs its head, if there is one. */
  lemma YieldRotates(k: Kernel)
    requires KernelOk(k) && Enabled(k, OpYield)
    ensures var r := Apply(k, OpYield);
            && r.locks == k.locks && r.sems == k.sems && r.conds == k.conds
            && if k.ts.ready == [] then r == k
               else r.ts.current == k.ts.ready[0] && r.ts.ready == k.ts.ready[1..] + [k.ts.current] && IsRunning(r.ts)
                    && forall q :: Waiters(r.ts, q) == Waiters(k.ts, q)
  {
    if k.ts.ready != [] {
      StepAsideKeepsInv(k.ts);
      RunNextKeepsInv(ReadyToRun(k.ts, k.ts.current));
    }
  }

  /** A forked thread is ready behind all others. */
  lemma ForkReadiesLast(k: Kernel, t: Tid)
    requires KernelOk(k) && Enabled(k, OpFork(t))
    ensures var r := Apply(k, OpFork(t));
            r == k.(ts := k.ts.(ready := k.ts.ready + [t], table := k.ts.table[t := Thread(Ready, Code, false)]))
  {
    assert Placed(k.ts, t);
  }

  /** Finish makes the caller the thread to destroy and runs the head of the ready list; a thread that has run
      before destroys it at once. */
  lemma FinishLeaves(k: Kernel)
    requires KernelOk(k) && Enabled(k, OpFinish)
    ensures var s, r := k.ts, Apply(k, OpFinish).ts;
            && Dispatched(s, r, []) && (forall q :: Waiters(r, q) == Waiters(s, q))
            && if s.ready != [] && s.table[s.ready[0]].started then s.current !in r.table && r.toBeDestroyed == None
               else s.current in r.table && r.table[s.current].loc == Finished && r.toBeDestroyed == Some(s.current)
  {
    FinishKeepsInv(k.ts);
    assert Placed(k.ts, k.ts.current);
    if k.ts.ready != [] {
      assert Placed(k.ts, k.ts.ready[0]);
    }
    assert k.ts.ready + [] == k.ts.ready;
  }

  /** A thread woken in Wait next tests the lock it waited with. */
  lemma WaitReturnSeeksLock(k: Kernel)
    requires KernelOk(k) && Enabled(k, OpWaitReturn)
    ensures var me, r := k.ts.current, Apply(k, OpWaitReturn);
            && r == k.(ts := k.ts.(table := k.ts.table[me := r.ts.table[me]]))
            && r.ts.table[me] == Thread(Running, At(LockQueue(k.ts.table[me].loc.mutex), 0), k.ts.table[me].started)
            && (k.ts.table[me].loc.mutex in k.locks ==> Enabled(r, OpAcquire(k.ts.table[me].loc.mutex)))
  {
  }
}

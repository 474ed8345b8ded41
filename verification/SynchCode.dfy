/** The code of thread.cc, scheduler.cc and synch.cc, statement by statement, on mutable state.  Each
    method is one atomic piece of the source and is proved equal to the operation of the step machine,
    about which the theorems are stated. */
module SynchCode {
  import opened Options
  import opened Threads
  import opened Synch

  /** Waking threads one after the other, the last one last. */
  lemma {:induction false} WakeManyLast(s: System, q: Queue, n: nat)
    requires SystemOk(s) && n < |Waiters(s, q)|
    ensures SystemOk(WakeMany(s, q, n)) && Waiters(WakeMany(s, q, n), q) == Waiters(s, q)[n..]
    ensures WakeMany(s, q, n + 1) == (WakeKeepsInv(WakeMany(s, q, n), q); Wake(WakeMany(s, q, n), q))
    decreases n
  {
    WakeManyKeepsInv(s, q, n);
    WakeKeepsInv(s, q);
    if n > 0 {
      WakeManyLast(Wake(s, q), q, n - 1);
      WakeKeepsInv(WakeMany(s, q, n), q);
    }
  }

  /** The code of Wait queues the thread, releases the lock and only then blocks: the same as
      blocking first. */
  lemma BlockLast(s: System, c: Id, l: Id)
    requires SystemOk(s) && IsRunning(s) && s.table[s.current].loc == Code
    ensures var q := s.queues[CondQueue(c) := Waiters(s, CondQueue(c)) + [s.current]];
            var woken := (WakeKeepsInv(s, LockQueue(l)); Wake(s.(queues := q), LockQueue(l)));
            && woken.current in woken.table && (woken.ready != [] ==> woken.ready[0] in woken.table)
            && Schedule(Block(woken, At(CondQueue(c), l))) == WaitAndRelease(s, c, l)
  {
    WakeKeepsInv(s, LockQueue(l));
    EnqueueKeepsInv(s, CondQueue(c), l);
    var s1 := Enqueue(s, CondQueue(c), l);
    WakeKeepsInv(s1, LockQueue(l));
    assert QueueOk(s, LockQueue(l));
    var woken := Wake(s.(queues := s1.queues), LockQueue(l));
    assert Block(woken, At(CondQueue(c), l)) == Wake(s1, LockQueue(l)) by {
      if Waiters(s, LockQueue(l)) != [] {
        assert WaitsOn(s, Waiters(s, LockQueue(l))[0], LockQueue(l));
      }
      assert Block(woken, At(CondQueue(c), l)).table == Wake(s1, LockQueue(l)).table;
    }
  }

  class Nachos {
    var current: Tid
    var table: map<Tid, Thread>
    var readyList: seq<Tid>
    var queues: map<Queue, seq<Tid>>
    var threadToBeDestroyed: Option<Tid>
    var switches: nat
    var locks: map<Id, Lock>
    var semaphores: map<Id, int>
    var conditions: map<Id, int>

    function Now(): System
      reads this
    {
      System(current, table, readyList, queues, threadToBeDestroyed, switches)
    }

    function View(): Kernel
      reads this
    {
      Kernel(Now(), locks, semaphores, conditions)
    }

    // -------------------------------------------------------------- wait queues

    method Append(q: Queue, t: Tid)
      modifies this`queues
      ensures queues == old(queues)[q := old(Waiters(Now(), q)) + [t]]
    {
      queues := queues[q := (if q in queues then queues[q] else []) + [t]];
    }

    method Remove(q: Queue) returns (t: Option<Tid>)
      modifies this`queues
      ensures var w := old(Waiters(Now(), q));
              if w == [] then t == None && queues == old(queues)
              else t == Some(w[0]) && queues == old(queues)[q := w[1..]]
    {
      if q !in queues || queues[q] == [] { return None; }
      t := Some(queues[q][0]);
      queues := queues[q := queues[q][1..]];
    }

    // -------------------------------------------------------------- scheduler.cc

    method ReadyToRun(t: Tid)
      requires t in table
      modifies this`table, this`readyList
      ensures Now() == Threads.ReadyToRun(old(Now()), t)
    {
      table := table[t := table[t].(status := Ready)];
      readyList := readyList + [t];
    }

    method FindNextToRun() returns (next: Option<Tid>)
      modifies this`readyList
      ensures if old(readyList) == [] then next == None && readyList == []
              else next == Some(old(readyList)[0]) && readyList == old(readyList)[1..]
    {
      if readyList == [] { return None; }
      next := Some(readyList[0]);
      readyList := readyList[1..];
    }

    method Run(next: Tid)
      requires next in table
      modifies this`current, this`table, this`switches, this`threadToBeDestroyed
      ensures Now() == RunNext(old(Now()).(ready := [next] + readyList))
    {
      current := next;
      var resumes := table[current].started;
      table := table[current := table[current].(status := Running, started := true)];
      switches := switches + 1;
      if resumes && threadToBeDestroyed.Some? {
        table := table - {threadToBeDestroyed.value};
        threadToBeDestroyed := None;
      }
      ghost var line := [next] + readyList;
      assert line[1..] == readyList;
    }

    /** The pair of statements that wakes a waiter: remove the first one, and ready it if there is one. */
    method WakeFirst(q: Queue)
      requires Waiters(Now(), q) != [] ==> Waiters(Now(), q)[0] in table
      modifies this`queues, this`table, this`readyList
      ensures Now() == Wake(old(Now()), q)
    {
      var thread := Remove(q);
      if thread.Some? {
        ReadyToRun(thread.value);
      }
    }

    // -------------------------------------------------------------- thread.cc

    /** Thread::Sleep, up to the idle loop when nobody is ready. */
    method Sleep(loc: Loc)
      requires current in table && (readyList != [] ==> readyList[0] in table)
      modifies this`current, this`table, this`readyList, this`switches, this`threadToBeDestroyed
      ensures Now() == Schedule(Block(old(Now()), loc))
    {
      table := table[current := table[current].(status := Blocked, loc := loc)];
      var next := FindNextToRun();
      if next.Some? {
        assert [next.value] + readyList == old(readyList);
        Run(next.value);
      }
    }

    method Yield()
      requires current in table && (readyList != [] ==> readyList[0] in table)
      modifies this`current, this`table, this`readyList, this`switches, this`threadToBeDestroyed
      ensures Now() == Threads.Yield(old(Now()))
    {
      var next := FindNextToRun();
      if next.Some? {
        ReadyToRun(current);
        assert [next.value] + readyList == old(readyList) + [old(current)];
        Run(next.value);
      }
    }

    method Finish()
      requires current in table && (readyList != [] ==> readyList[0] in table)
      modifies this`current, this`table, this`readyList, this`switches, this`threadToBeDestroyed
      ensures Now() == Threads.Finish(old(Now()))
    {
      threadToBeDestroyed := Some(current);
      Sleep(Finished);
    }

    // -------------------------------------------------------------- synch.cc

    /** One turn of the loop of Lock::Acquire and what follows it. */
    method Acquire(l: Id)
      requires KernelOk(View()) && Enabled(View(), OpAcquire(l))
      modifies this
      ensures View() == Apply(old(View()), OpAcquire(l))
    {
      if !(locks[l].owner == current) && locks[l].taken {
        Append(LockQueue(l), current);
        Sleep(At(LockQueue(l), 0));
      } else {
        locks := locks[l := Lock(true, current, locks[l].inside + {current})];
        table := table[current := table[current].(loc := Code)];
      }
    }

    method Release(l: Id)
      requires l in locks
      requires Waiters(Now(), LockQueue(l)) != [] ==> Waiters(Now(), LockQueue(l))[0] in table
      modifies this`locks, this`queues, this`table, this`readyList
      ensures View() == Synch.Release(old(View()), l)
    {
      if locks[l].owner != current { return; }
      WakeFirst(LockQueue(l));
      locks := locks[l := Lock(false, locks[l].owner, locks[l].inside - {current})];
    }

    /** One turn of the loop of Semaphore::P and what follows it. */
    method P(s: Id)
      requires KernelOk(View()) && Enabled(View(), OpP(s))
      modifies this
      ensures View() == Apply(old(View()), OpP(s))
    {
      if semaphores[s] == 0 {
        Append(SemQueue(s), current);
        Sleep(At(SemQueue(s), 0));
      } else {
        semaphores := semaphores[s := semaphores[s] - 1];
        table := table[current := table[current].(loc := Code)];
      }
    }

    method V(s: Id)
      requires KernelOk(View()) && Enabled(View(), OpV(s))
      modifies this
      ensures View() == Apply(old(View()), OpV(s))
    {
      WakeKeepsInv(Now(), SemQueue(s));
      WakeFirst(SemQueue(s));
      semaphores := semaphores[s := semaphores[s] + 1];
    }

    /** Condition::Wait before its Sleep: the thread joins the queue and gives up the lock. */
    method JoinAndRelease(c: Id, l: Id)
      requires SystemOk(Now()) && l in locks && c in conditions && locks[l].owner == current
      modifies this`queues, this`conditions, this`locks, this`table, this`readyList
      ensures var s := old(Now());
              var q := s.queues[CondQueue(c) := Waiters(s, CondQueue(c)) + [s.current]];
              Now() == (WakeKeepsInv(s, LockQueue(l)); Wake(s.(queues := q), LockQueue(l)))
      ensures locks == old(locks)[l := Lock(false, current, old(locks[l]).inside - {current})]
      ensures conditions == old(conditions)[c := old(conditions)[c] + 1]
    {
      WakeKeepsInv(Now(), LockQueue(l));
      Append(CondQueue(c), current);
      conditions := conditions[c := conditions[c] + 1];
      Release(l);
    }

    /** Condition::Wait up to its Sleep. */
    method Wait(c: Id, l: Id)
      requires KernelOk(View()) && Enabled(View(), OpWait(c, l))
      modifies this
      ensures View() == Apply(old(View()), OpWait(c, l))
    {
      if locks[l].owner != current { return; }
      BlockLast(Now(), c, l);
      JoinAndRelease(c, l);
      Sleep(At(CondQueue(c), l));
    }

    method Signal(c: Id, l: Id)
      requires KernelOk(View()) && Enabled(View(), OpSignal(c, l))
      modifies this
      ensures View() == Apply(old(View()), OpSignal(c, l))
    {
      WakeKeepsInv(Now(), CondQueue(c));
      if locks[l].owner != current { return; }
      if conditions[c] > 0 {
        conditions := conditions[c := conditions[c] - 1];
        WakeFirst(CondQueue(c));
      }
    }

    /** The loop of Condition::Broadcast. */
    method WakeAll(c: Id)
      requires SystemOk(Now()) && c in conditions && conditions[c] == |Waiters(Now(), CondQueue(c))|
      modifies this`conditions, this`queues, this`table, this`readyList
      ensures Now() == WakeMany(old(Now()), CondQueue(c), old(conditions[c]))
      ensures conditions == old(conditions)[c := 0]
    {
      ghost var s, n := Now(), conditions[c];
      while conditions[c] > 0
        invariant c in conditions && 0 <= conditions[c] <= n && conditions == old(conditions)[c := conditions[c]]
        invariant Now() == WakeMany(s, CondQueue(c), n - conditions[c])
        decreases conditions[c]
      {
        WakeManyLast(s, CondQueue(c), n - conditions[c]);
        WakeKeepsInv(Now(), CondQueue(c));
        conditions := conditions[c := conditions[c] - 1];
        WakeFirst(CondQueue(c));
      }
    }

    method Broadcast(c: Id, l: Id)
      requires KernelOk(View()) && Enabled(View(), OpBroadcast(c, l))
      modifies this
      ensures View() == Apply(old(View()), OpBroadcast(c, l))
    {
      assert CondOk(View(), c);
      if locks[l].owner != current { return; }
      WakeAll(c);
    }
  }
}

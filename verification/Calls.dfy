/** Whole calls on the kernel: a request through the gate (synchdisk.cc, PostOffice::Send in post.cc) and the calls
    of a synchronised list (synchlist.cc) get through, with what they promise done. */
module Calls {
  import opened Threads
  import opened Synch
  import S = SynchLaws
  import G = Gate
  import L = SynchList

  // ---------------------------------------------------------------- a request through the gate

  /** The caller runs outside the kernel's routines, nobody is in the gate. */
  ghost predicate Free<R>(g: G.Gate<R>) {
    && G.GateOk(g) && IsRunning(g.k.ts) && Me(g.k).loc == Code && g.k.ts.current !in g.pc && !g.k.locks[g.lock].taken
  }

  /** The current thread is at pc in the gate, with `unit` units of the semaphore; otherwise g is as g0. */
  ghost predicate Stage<R>(g0: G.Gate<R>, g: G.Gate<R>, pc: G.Pc<R>, unit: int, active: bool, issued: nat, completed: nat) {
    && G.GateOk(g) && g.lock == g0.lock && g.sem == g0.sem && g.k.ts.current == g0.k.ts.current
    && IsRunning(g.k.ts) && Me(g.k).loc == Code && g.pc == g0.pc[g.k.ts.current := pc]
    && g.k.sems[g.sem] == unit && g.active == active && g.issued == issued && g.completed == completed
    && (G.Holds(pc) ==> g.k.locks[g.lock].taken && g.k.locks[g.lock].owner == g.k.ts.current)
  }

  lemma Starts<R>(g: G.Gate<R>, req: R)
    requires Free(g)
    ensures G.Can(g, G.Start(req)) && Stage(g, G.Act(g, G.Start(req)), G.Entering(req), 0, false, g.issued, g.issued)
    ensures !G.Act(g, G.Start(req)).k.locks[g.lock].taken
  {
    assert SemOk(g.k, g.sem);
    G.StartKeeps(g, req);
  }

  lemma Enters<R>(g0: G.Gate<R>, g: G.Gate<R>, req: R)
    requires Stage(g0, g, G.Entering(req), 0, false, g0.issued, g0.issued) && !g.k.locks[g.lock].taken
    ensures G.Can(g, G.Enter) && Stage(g0, G.Act(g, G.Enter), G.Issuing(req), 0, false, g0.issued, g0.issued)
  {
    G.InsideOk(g);
    G.EnterKeeps(g);
    S.AcquireTakesOrSleeps(g.k, g.lock);
  }

  lemma Issues<R>(g0: G.Gate<R>, g: G.Gate<R>, req: R)
    requires Stage(g0, g, G.Issuing(req), 0, false, g0.issued, g0.issued)
    ensures var n := g0.issued + 1;
            G.Can(g, G.Issue) && Stage(g0, G.Act(g, G.Issue), G.Waiting(req, n), 0, true, n, g0.issued)
  {
    G.IssueKeeps(g);
  }

  lemma Interrupts<R>(g0: G.Gate<R>, g: G.Gate<R>, req: R)
    requires var n := g0.issued + 1; Stage(g0, g, G.Waiting(req, n), 0, true, n, g0.issued)
    ensures var n := g0.issued + 1;
            G.Can(g, G.Interrupt) && Stage(g0, G.Act(g, G.Interrupt), G.Waiting(req, n), 1, false, n, n)
  {
    G.InterruptKeeps(g);
    S.VReadiesFirst(g.k, g.sem);
    RunnerWaitsNowhere(g.k.ts, SemQueue(g.sem));
  }

  lemma RunnerWaitsNowhere(s: System, q: Queue)
    requires SystemOk(s) && IsRunning(s)
    ensures s.current !in Waiters(s, q)
  {
    assert QueueOk(s, q);
  }

  lemma Finishes<R>(g0: G.Gate<R>, g: G.Gate<R>, req: R)
    requires var n := g0.issued + 1; Stage(g0, g, G.Waiting(req, n), 1, false, n, n)
    ensures var n := g0.issued + 1;
            G.Can(g, G.AwaitDone) && Stage(g0, G.Act(g, G.AwaitDone), G.Leaving(req, n), 0, false, n, n)
  {
    G.InsideOk(g);
    G.AwaitDoneKeeps(g);
    S.PTakesOrSleeps(g.k, g.sem);
  }

  lemma Leaves<R>(g0: G.Gate<R>, g: G.Gate<R>, req: R)
    requires var n := g0.issued + 1; Stage(g0, g, G.Leaving(req, n), 0, false, n, n) && g0.k.ts.current !in g0.pc
    ensures G.Can(g, G.Leave)
    ensures var r := G.Act(g, G.Leave);
            && Free(r) && r.pc == g0.pc && r.k.ts.current == g0.k.ts.current
            && r.issued == r.completed == g0.issued + 1 && !r.active && r.k.sems[r.sem] == 0
  {
    G.InsideOk(g);
    G.LeaveKeeps(g);
    S.ReleaseReadiesFirst(g.k, g.lock);
    RunnerWaitsNowhere(g.k.ts, LockQueue(g.lock));
  }

  /** A request made while the gate is free goes all the way through: lock, call, interrupt, semaphore and release
      are all possible in turn, and leave one more request made and completed and the gate free again. */
  lemma RequestCompletes<R>(g: G.Gate<R>, req: R)
    returns (g1: G.Gate<R>, g2: G.Gate<R>, g3: G.Gate<R>, g4: G.Gate<R>, g5: G.Gate<R>, r: G.Gate<R>)
    requires Free(g)
    ensures G.Can(g, G.Start(req)) && g1 == G.Act(g, G.Start(req)) && G.GateOk(g1)
    ensures G.Can(g1, G.Enter) && g2 == G.Act(g1, G.Enter) && G.GateOk(g2)
    ensures G.Can(g2, G.Issue) && g3 == G.Act(g2, G.Issue) && G.GateOk(g3)
    ensures G.Can(g3, G.Interrupt) && g4 == G.Act(g3, G.Interrupt) && G.GateOk(g4)
    ensures G.Can(g4, G.AwaitDone) && g5 == G.Act(g4, G.AwaitDone) && G.GateOk(g5)
    ensures G.Can(g5, G.Leave) && r == G.Act(g5, G.Leave)
    ensures Free(r) && r.pc == g.pc && r.k.ts.current == g.k.ts.current && r.issued == r.completed == g.issued + 1
  {
    Starts(g, req);
    g1 := G.Act(g, G.Start(req));
    Enters(g, g1, req);
    g2 := G.Act(g1, G.Enter);
    Issues(g, g2, req);
    g3 := G.Act(g2, G.Issue);
    Interrupts(g, g3, req);
    g4 := G.Act(g3, G.Interrupt);
    Finishes(g, g4, req);
    g5 := G.Act(g4, G.AwaitDone);
    Leaves(g, g5, req);
    r := G.Act(g5, G.Leave);
  }

  /** The completion interrupt readies the caller that sleeps on the semaphore and leaves it a unit to take. */
  lemma InterruptWakes<R>(g: G.Gate<R>, t: Tid)
    requires G.GateOk(g) && t in Waiters(g.k.ts, SemQueue(g.sem))
    ensures G.Can(g, G.Interrupt)
    ensures var r := G.Act(g, G.Interrupt);
            && r.k.ts.ready == g.k.ts.ready + [t] && t !in Waiters(r.k.ts, SemQueue(g.sem)) && r.k.sems[g.sem] == 1 && !r.active
  {
    G.SleeperIsPending(g, t);
    assert SemOk(g.k, g.sem);
    S.VReadiesFirst(g.k, g.sem);
    OnlySleeper(g, t);
  }

  /** Nobody else sleeps there. */
  lemma OnlySleeper<R>(g: G.Gate<R>, t: Tid)
    requires G.GateOk(g) && t in Waiters(g.k.ts, SemQueue(g.sem))
    ensures Waiters(g.k.ts, SemQueue(g.sem)) == [t]
  {
    var line := Waiters(g.k.ts, SemQueue(g.sem));
    assert QueueOk(g.k.ts, SemQueue(g.sem));
    forall i | 0 <= i < |line|
      ensures line[i] == t
    {
      assert line[i] in line;
      InsideThere(g, line[i]);
      InsideThere(g, t);
    }
    AllSame(line, t);
    assert line == [t];
  }

  lemma AllSame(line: seq<Tid>, t: Tid)
    requires forall i :: 0 <= i < |line| ==> line[i] == t
    ensures NoDup(line) ==> |line| <= 1
  {
    if |line| > 1 {
      assert line[0] == line[1];
    }
  }

  lemma InsideThere<R>(g: G.Gate<R>, t: Tid)
    requires G.GateOk(g) && t in Waiters(g.k.ts, SemQueue(g.sem))
    ensures g.k.locks[g.lock].taken && t == g.k.locks[g.lock].owner
  {
    assert QueueOk(g.k.ts, SemQueue(g.sem)) && LockOk(g.k, g.lock);
    assert WaitsOn(g.k.ts, t, SemQueue(g.sem));
    assert t in g.pc ==> G.PcOk(g, t);
    assert t !in g.pc ==> G.OutsideOk(g, t);
  }

  // ---------------------------------------------------------------- calls of a synchronised list

  /** The caller runs outside the kernel's routines, nobody holds the list. */
  ghost predicate Idle<T>(m: L.Monitor<T>) {
    && L.MonitorOk(m) && IsRunning(m.k.ts) && Me(m.k).loc == Code && m.k.ts.current !in m.pc && !m.k.locks[m.lock].taken
  }

  /** The current thread is at pc in the list's code; otherwise the threads in it are as in m0. */
  ghost predicate ListStage<T>(m0: L.Monitor<T>, m: L.Monitor<T>, pc: L.Pc<T>) {
    && L.MonitorOk(m) && m.lock == m0.lock && m.cond == m0.cond && m.k.ts.current == m0.k.ts.current
    && IsRunning(m.k.ts) && Me(m.k).loc == Code && m.pc == m0.pc[m.k.ts.current := pc]
    && (L.Holds(pc) ==> m.k.locks[m.lock].taken && m.k.locks[m.lock].owner == m.k.ts.current)
  }

  /** The list and its histories. */
  predicate Holding<T(==)>(m: L.Monitor<T>, list: seq<T>, appended: seq<T>, removed: seq<T>) {
    m.list == list && m.appended == appended && m.removed == removed
  }

  /** The current thread is about to test the lock. */
  ghost predicate AtDoor<T>(m0: L.Monitor<T>, m: L.Monitor<T>, pc: L.Pc<T>) {
    && L.MonitorOk(m) && m.lock == m0.lock && m.cond == m0.cond && m.k.ts.current == m0.k.ts.current
    && IsRunning(m.k.ts) && m.pc == m0.pc[m.k.ts.current := pc] && (pc.AppendEnter? || pc.RemoveEnter?)
  }

  lemma EntersList<T>(m0: L.Monitor<T>, m: L.Monitor<T>, pc: L.Pc<T>)
    requires AtDoor(m0, m, pc) && !m.k.locks[m.lock].taken
    ensures L.Can(m, L.Enter)
    ensures var r := L.Act(m, L.Enter);
            && ListStage(m0, r, if pc.AppendEnter? then L.AppendIn(pc.item) else L.RemoveTest(pc.signalled))
            && Holding(r, m.list, m.appended, m.removed)
            && Waiters(r.k.ts, CondQueue(m.cond)) == Waiters(m.k.ts, CondQueue(m.cond)) && r.k.ts.ready == m.k.ts.ready
  {
    L.InsideOk(m);
    L.EnterKeeps(m);
    S.AcquireTakesOrSleeps(m.k, m.lock);
  }

  lemma LeavesList<T>(m0: L.Monitor<T>, m: L.Monitor<T>)
    requires ListStage(m0, m, L.Leaving) && m0.k.ts.current !in m0.pc
    ensures L.Can(m, L.Leave)
    ensures var r := L.Act(m, L.Leave);
            && Idle(r) && r.pc == m0.pc && r.k.ts.current == m0.k.ts.current && Holding(r, m.list, m.appended, m.removed)
            && Waiters(r.k.ts, CondQueue(m.cond)) == Waiters(m.k.ts, CondQueue(m.cond)) && m.k.ts.ready <= r.k.ts.ready
  {
    L.InsideOk(m);
    L.LeaveKeeps(m);
    S.ReleaseReadiesFirst(m.k, m.lock);
    RunnerWaitsNowhere(m.k.ts, LockQueue(m.lock));
  }

  /** Appending puts the item last and readies the first consumer that sleeps. */
  lemma Appends<T>(m0: L.Monitor<T>, m: L.Monitor<T>, x: T)
    requires ListStage(m0, m, L.AppendIn(x))
    ensures L.Can(m, L.DoAppend)
    ensures var r := L.Act(m, L.DoAppend);
            && ListStage(m0, r, L.Leaving) && Holding(r, m.list + [x], m.appended + [x], m.removed)
            && var line := Waiters(m.k.ts, CondQueue(m.cond));
            && r.k.ts.ready == m.k.ts.ready + S.FirstOf(line) && line == S.FirstOf(line) + Waiters(r.k.ts, CondQueue(m.cond))
  {
    L.InsideOk(m);
    SignalledBy(m.k, m.cond, m.lock);
    AppendActs(m, Apply(m.k, OpSignal(m.cond, m.lock)));
  }

  lemma AppendActs<T>(m: L.Monitor<T>, k: Kernel)
    requires L.MonitorOk(m) && L.Can(m, L.DoAppend)
    requires Enabled(m.k, OpSignal(m.cond, m.lock)) && k == Apply(m.k, OpSignal(m.cond, m.lock))
    ensures var x := m.pc[m.k.ts.current].item;
            && L.MonitorOk(L.Act(m, L.DoAppend))
            && L.Act(m, L.DoAppend)
               == m.(k := k, pc := m.pc[m.k.ts.current := L.Leaving], list := m.list + [x], appended := m.appended + [x])
  {
    L.DoAppendKeeps(m);
  }

  /** What Signal by the owner of the lock leaves the caller and the line of sleepers. */
  lemma SignalledBy(k: Kernel, c: Id, l: Id)
    requires KernelOk(k) && Enabled(k, OpSignal(c, l)) && k.locks[l].owner == k.ts.current
    ensures var r, line := Apply(k, OpSignal(c, l)), Waiters(k.ts, CondQueue(c));
            && r.locks == k.locks && r.ts.current == k.ts.current && r.ts.current in r.ts.table
            && r.ts.table[r.ts.current] == k.ts.table[k.ts.current]
            && r.ts.ready == k.ts.ready + S.FirstOf(line) && line == S.FirstOf(line) + Waiters(r.ts, CondQueue(c))
  {
    S.SignalReadiesFirst(k, c, l);
    RunnerWaitsNowhere(k.ts, CondQueue(c));
  }

  /** A call of Append on a list nobody holds: the item is last on the list, and the first consumer that sleeps is
      ready. */
  lemma AppendCompletes<T>(m: L.Monitor<T>, x: T) returns (m1: L.Monitor<T>, m2: L.Monitor<T>, m3: L.Monitor<T>, r: L.Monitor<T>)
    requires Idle(m)
    ensures L.Can(m, L.StartAppend(x)) && m1 == L.Act(m, L.StartAppend(x)) && L.MonitorOk(m1)
    ensures L.Can(m1, L.Enter) && m2 == L.Act(m1, L.Enter) && L.MonitorOk(m2)
    ensures L.Can(m2, L.DoAppend) && m3 == L.Act(m2, L.DoAppend) && L.MonitorOk(m3)
    ensures L.Can(m3, L.Leave) && r == L.Act(m3, L.Leave)
    ensures m1.k.ts.current == m2.k.ts.current == m3.k.ts.current == m.k.ts.current
    ensures Idle(r) && r.pc == m.pc && r.k.ts.current == m.k.ts.current && Holding(r, m.list + [x], m.appended + [x], m.removed)
    ensures var line := Waiters(m.k.ts, CondQueue(m.cond));
            m.k.ts.ready + S.FirstOf(line) <= r.k.ts.ready && line == S.FirstOf(line) + Waiters(r.k.ts, CondQueue(m.cond))
  {
    L.StepKeeps(m, L.StartAppend(x));
    m1 := L.Act(m, L.StartAppend(x));
    EntersList(m, m1, L.AppendEnter(x));
    m2 := L.Act(m1, L.Enter);
    Appends(m, m2, x);
    m3 := L.Act(m2, L.DoAppend);
    LeavesList(m, m3);
    r := L.Act(m3, L.Leave);
  }

  /** From the test on a list that is not empty, Remove takes its first item and leaves. */
  lemma TakeCompletes<T>(m0: L.Monitor<T>, m: L.Monitor<T>, signalled: bool)
    returns (m1: L.Monitor<T>, m2: L.Monitor<T>, r: L.Monitor<T>)
    requires ListStage(m0, m, L.RemoveTest(signalled)) && m.list != [] && m0.k.ts.current !in m0.pc
    ensures L.Can(m, L.Test) && m1 == L.Act(m, L.Test) && L.MonitorOk(m1)
    ensures L.Can(m1, L.Take) && m2 == L.Act(m1, L.Take) && L.MonitorOk(m2)
    ensures L.Can(m2, L.Leave) && r == L.Act(m2, L.Leave)
    ensures Idle(r) && r.pc == m0.pc && r.k.ts.current == m0.k.ts.current
    ensures Holding(r, m.list[1..], m.appended, m.removed + [m.list[0]])
  {
    L.TestKeeps(m);
    m1 := L.Act(m, L.Test);
    assert ListStage(m0, m1, L.RemoveTake(signalled));
    L.TakeKeeps(m1);
    m2 := L.Act(m1, L.Take);
    assert ListStage(m0, m2, L.Leaving);
    LeavesList(m0, m2);
    r := L.Act(m2, L.Leave);
  }

  /** A call of Remove on a list that nobody holds and that is not empty: the first item is taken. */
  lemma RemoveCompletes<T>(m: L.Monitor<T>)
    returns (m1: L.Monitor<T>, m2: L.Monitor<T>, m3: L.Monitor<T>, m4: L.Monitor<T>, r: L.Monitor<T>)
    requires Idle(m) && m.list != []
    ensures L.Can(m, L.StartRemove) && m1 == L.Act(m, L.StartRemove) && L.MonitorOk(m1)
    ensures L.Can(m1, L.Enter) && m2 == L.Act(m1, L.Enter) && L.MonitorOk(m2)
    ensures L.Can(m2, L.Test) && m3 == L.Act(m2, L.Test) && L.MonitorOk(m3)
    ensures L.Can(m3, L.Take) && m4 == L.Act(m3, L.Take) && L.MonitorOk(m4)
    ensures L.Can(m4, L.Leave) && r == L.Act(m4, L.Leave)
    ensures Idle(r) && r.pc == m.pc && Holding(r, m.list[1..], m.appended, m.removed + [m.list[0]])
  {
    L.StepKeeps(m, L.StartRemove);
    m1 := L.Act(m, L.StartRemove);
    EntersList(m, m1, L.RemoveEnter(false));
    m2 := L.Act(m1, L.Enter);
    m3, m4, r := TakeCompletes(m, m2, false);
  }

  /** A call of Remove on an empty list sleeps, last in line, and lets the list go. */
  lemma RemoveSleeps<T>(m: L.Monitor<T>) returns (m1: L.Monitor<T>, m2: L.Monitor<T>, r: L.Monitor<T>)
    requires Idle(m) && m.list == []
    ensures L.Can(m, L.StartRemove) && m1 == L.Act(m, L.StartRemove) && L.MonitorOk(m1)
    ensures L.Can(m1, L.Enter) && m2 == L.Act(m1, L.Enter) && L.MonitorOk(m2)
    ensures L.Can(m2, L.Test) && r == L.Act(m2, L.Test) && L.MonitorOk(r)
    ensures var me, q := m.k.ts.current, CondQueue(m.cond);
            && Waiters(r.k.ts, q) == Waiters(m.k.ts, q) + [me] && !r.k.locks[m.lock].taken
            && r.pc == m.pc[me := L.RemoveWait] && Holding(r, [], m.appended, m.removed)
  {
    L.StepKeeps(m, L.StartRemove);
    m1 := L.Act(m, L.StartRemove);
    EntersList(m, m1, L.RemoveEnter(false));
    m2 := L.Act(m1, L.Enter);
    SleepsAtTest(m, m2);
    r := L.Act(m2, L.Test);
  }

  lemma SleepsAtTest<T>(m0: L.Monitor<T>, m: L.Monitor<T>)
    requires ListStage(m0, m, L.RemoveTest(false)) && m.list == []
    ensures L.Can(m, L.Test)
    ensures var me, q, r := m.k.ts.current, CondQueue(m.cond), L.Act(m, L.Test);
            && L.MonitorOk(r) && Waiters(r.k.ts, q) == Waiters(m.k.ts, q) + [me] && !r.k.locks[m.lock].taken
            && r.pc == m0.pc[me := L.RemoveWait] && Holding(r, [], m.appended, m.removed)
  {
    L.InsideOk(m);
    WaitedBy(m.k, m.cond, m.lock);
    TestSleeps(m, Apply(m.k, OpWait(m.cond, m.lock)));
  }

  lemma WaitedBy(k: Kernel, c: Id, l: Id)
    requires KernelOk(k) && Enabled(k, OpWait(c, l)) && k.locks[l].owner == k.ts.current
    ensures var r := Apply(k, OpWait(c, l));
            Waiters(r.ts, CondQueue(c)) == Waiters(k.ts, CondQueue(c)) + [k.ts.current] && l in r.locks && !r.locks[l].taken
  {
    S.WaitSleepsAndReleases(k, c, l);
  }

  lemma TestSleeps<T>(m: L.Monitor<T>, k: Kernel)
    requires L.MonitorOk(m) && L.Can(m, L.Test) && m.list == []
    requires Enabled(m.k, OpWait(m.cond, m.lock)) && k == Apply(m.k, OpWait(m.cond, m.lock))
    ensures L.MonitorOk(L.Act(m, L.Test)) && L.Act(m, L.Test) == m.(k := k, pc := m.pc[m.k.ts.current := L.RemoveWait])
  {
    L.TestKeeps(m);
  }

  /** A consumer that a Signal has woken, when it runs and finds the list free and not empty, takes the first item
      and is out. */
  lemma WokenTakes<T>(m: L.Monitor<T>)
    returns (m1: L.Monitor<T>, m2: L.Monitor<T>, m3: L.Monitor<T>, m4: L.Monitor<T>, r: L.Monitor<T>)
    requires L.MonitorOk(m) && L.Can(m, L.WaitReturn) && !m.k.locks[m.lock].taken && m.list != []
    ensures m1 == L.Act(m, L.WaitReturn) && L.MonitorOk(m1)
    ensures L.Can(m1, L.Enter) && m2 == L.Act(m1, L.Enter) && L.MonitorOk(m2)
    ensures L.Can(m2, L.Test) && m3 == L.Act(m2, L.Test) && L.MonitorOk(m3)
    ensures L.Can(m3, L.Take) && m4 == L.Act(m3, L.Take) && L.MonitorOk(m4)
    ensures L.Can(m4, L.Leave) && r == L.Act(m4, L.Leave)
    ensures Idle(r) && r.pc == m.pc - {m.k.ts.current} && Holding(r, m.list[1..], m.appended, m.removed + [m.list[0]])
  {
    var m0 := m.(pc := m.pc - {m.k.ts.current});
    Returns(m0, m);
    m1 := L.Act(m, L.WaitReturn);
    EntersList(m0, m1, L.RemoveEnter(true));
    m2 := L.Act(m1, L.Enter);
    m3, m4, r := TakeCompletes(m0, m2, true);
  }

  lemma Returns<T>(m0: L.Monitor<T>, m: L.Monitor<T>)
    requires L.MonitorOk(m) && L.Can(m, L.WaitReturn) && m0 == m.(pc := m.pc - {m.k.ts.current})
    ensures var r := L.Act(m, L.WaitReturn);
            AtDoor(m0, r, L.RemoveEnter(true)) && r.k.locks == m.k.locks && Holding(r, m.list, m.appended, m.removed)
  {
    L.InsideOk(m);
    L.WaitReturnKeeps(m);
    S.WaitReturnSeeksLock(m.k);
  }
}

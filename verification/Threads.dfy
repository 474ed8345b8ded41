/** Threads and the scheduler (thread.cc, scheduler.cc): the thread table, the ready list, the
    wait queues of the synchronisation objects, and dispatching with deferred destruction. */
module Threads {
  import opened Options

  type Tid = nat
  type Id = nat

  datatype Status = JustCreated | Running | Ready | Blocked

  /** The wait queue of a lock, a semaphore or a condition. */
  datatype Queue = LockQueue(lock: Id) | SemQueue(sem: Id) | CondQueue(cond: Id)

  /** Where a thread resumes when it is next dispatched. */
  datatype Loc =
    | Code                        // outside every synchronisation routine
    | At(queue: Queue, mutex: Id) // after the Sleep of the routine that owns `queue`;
                                  // Condition::Wait will then acquire `mutex`
    | Finished                    // in Thread::Finish, never to be dispatched again

  /** `started` says whether the thread has ever been dispatched: the first dispatch enters
      ThreadRoot instead of returning from SWITCH inside Scheduler::Run. */
  datatype Thread = Thread(status: Status, loc: Loc, started: bool)

  /** `switches` counts the calls of Scheduler::Run. */
  datatype System = System(
    current: Tid,
    table: map<Tid, Thread>,
    ready: seq<Tid>,
    queues: map<Queue, seq<Tid>>,
    toBeDestroyed: Option<Tid>,
    switches: nat)

  function Waiters(s: System, q: Queue): seq<Tid> {
    if q in s.queues then s.queues[q] else []
  }

  predicate IsRunning(s: System) {
    s.current in s.table && s.table[s.current].status == Running
  }

  // ---------------------------------------------------------------- operations

  function SetThread(s: System, t: Tid, th: Thread): System {
    s.(table := s.table[t := th])
  }

  /** Scheduler::ReadyToRun */
  function ReadyToRun(s: System, t: Tid): System
    requires t in s.table
  {
    SetThread(s, t, s.table[t].(status := Ready)).(ready := s.ready + [t])
  }

  /** Scheduler::Run on the head of the ready list.  A thread that was switched out inside Run
      continues after SWITCH and destroys the finished thread; a new thread does not. */
  function RunNext(s: System): System
    requires s.ready != [] && s.ready[0] in s.table
  {
    var next := s.ready[0];
    var th := s.table[next];
    var s1 := SetThread(s, next, th.(status := Running, started := true))
              .(current := next, ready := s.ready[1..], switches := s.switches + 1);
    if th.started && s.toBeDestroyed.Some? then
      s1.(table := s1.table - {s.toBeDestroyed.value}, toBeDestroyed := None)
    else s1
  }

  /** The current thread stops running; nobody is dispatched yet. */
  function Block(s: System, loc: Loc): System
    requires s.current in s.table
  {
    SetThread(s, s.current, s.table[s.current].(status := Blocked, loc := loc))
  }

  /** The loop of Thread::Sleep.  With nobody ready the processor idles: the current thread stays
      current, without running, until an interrupt handler readies some thread. */
  function Schedule(s: System): System
    requires s.ready != [] ==> s.ready[0] in s.table
  {
    if s.ready == [] then s else RunNext(s)
  }

  /** Append the current thread to a wait queue and block it. */
  function Enqueue(s: System, q: Queue, mutex: Id): System
    requires s.current in s.table
  {
    Block(s, At(q, mutex)).(queues := s.queues[q := Waiters(s, q) + [s.current]])
  }

  /** Ready the first waiter of a queue, if there is one. */
  function Wake(s: System, q: Queue): System
    requires Waiters(s, q) != [] ==> Waiters(s, q)[0] in s.table
  {
    if Waiters(s, q) == [] then s
    else ReadyToRun(s, Waiters(s, q)[0]).(queues := s.queues[q := Waiters(s, q)[1..]])
  }

  /** Thread::Yield */
  function Yield(s: System): System
    requires s.current in s.table
    requires s.ready != [] ==> s.ready[0] in s.table
  {
    if s.ready == [] then s else RunNext(ReadyToRun(s, s.current))
  }

  /** The current thread moves on inside the code it runs. */
  function GoTo(s: System, loc: Loc): System
    requires s.current in s.table
  {
    SetThread(s, s.current, s.table[s.current].(loc := loc))
  }

  function Create(s: System, t: Tid): System {
    SetThread(s, t, Thread(JustCreated, Code, false))
  }

  /** Thread::Finish */
  function Finish(s: System): System
    requires s.current in s.table
    requires s.ready != [] ==> s.ready[0] in s.table
  {
    Schedule(Block(s.(toBeDestroyed := Some(s.current)), Finished))
  }

  // ---------------------------------------------------------------- invariant

  ghost predicate NoDup<T>(s: seq<T>) {
    forall i, j :: 0 <= i < j < |s| ==> s[i] != s[j]
  }

  /** Thread t is on the wait queue q. */
  predicate WaitsOn(s: System, t: Tid, q: Queue) {
    t in s.table && s.table[t].status == Blocked && s.table[t].loc.At? && s.table[t].loc.queue == q
  }

  ghost predicate QueueOk(s: System, q: Queue) {
    NoDup(Waiters(s, q)) && forall t :: t in Waiters(s, q) ==> WaitsOn(s, t, q)
  }

  /** The status of a thread names the one place it is in. */
  predicate Placed(s: System, t: Tid)
    requires t in s.table
  {
    match s.table[t].status
    case Running => t == s.current && t !in s.ready && s.table[t].loc != Finished
    case Ready => t in s.ready && s.table[t].loc != Finished
    case Blocked => t !in s.ready && s.table[t].loc != Code
                    && (s.table[t].loc.At? ==> t in Waiters(s, s.table[t].loc.queue))
    case JustCreated => t !in s.ready && s.table[t].loc == Code && !s.table[t].started
  }

  ghost predicate SystemOk(s: System) {
    && s.current in s.table
    && NoDup(s.ready)
    && (forall i :: 0 <= i < |s.ready| ==> s.ready[i] in s.table)
    && (forall t {:trigger Placed(s, t)} :: t in s.table ==> Placed(s, t))
    && (forall q :: QueueOk(s, q))
    && (s.toBeDestroyed.Some? ==> s.toBeDestroyed.value in s.table
                                  && s.table[s.toBeDestroyed.value].loc == Finished)
  }

  /** The threads that have left the queue q and will test its object again. */
  ghost function Woken(s: System, q: Queue): set<Tid> {
    set t | t in s.table && s.table[t].loc.At? && s.table[t].loc.queue == q && s.table[t].status != Blocked
  }

  /** The thread at `loc` is in the loop that waits on q, or about to enter it. */
  predicate InLoop(loc: Loc, q: Queue) {
    loc == Code || (loc.At? && loc.queue == q)
  }

  ghost predicate SameQueue(s: System, r: System, q: Queue) {
    Waiters(r, q) == Waiters(s, q) && Woken(r, q) == Woken(s, q)
  }

  ghost predicate SameExcept(s: System, r: System, q: Queue) {
    forall p :: p != q ==> SameQueue(s, r, p)
  }

  ghost predicate SameQueues(s: System, r: System) {
    forall q :: SameQueue(s, r, q)
  }

  // ---------------------------------------------------------------- every operation keeps it

  lemma RunNextKeepsInv(s: System)
    requires SystemOk(s) && !IsRunning(s) && s.ready != []
    ensures var r := RunNext(s); SystemOk(r) && IsRunning(r)
    ensures SameQueues(s, RunNext(s))
  {
    var r := RunNext(s);
    RunNextPlaces(s);
    assert Placed(s, s.ready[0]);
    forall q
      ensures QueueOk(r, q)
    {
      assert QueueOk(s, q);
    }
  }

  lemma RunNextPlaces(s: System)
    requires SystemOk(s) && !IsRunning(s) && s.ready != []
    ensures var r := RunNext(s);
            && r.current in r.table && IsRunning(r) && (forall t {:trigger Placed(r, t)} :: t in r.table ==> Placed(r, t))
            && (forall i :: 0 <= i < |r.ready| ==> r.ready[i] in r.table)
  {
    var r := RunNext(s);
    forall i | 0 <= i < |s.ready|
      ensures Placed(s, s.ready[i])
    {
    }
    forall t | t in r.table
      ensures Placed(r, t)
    {
      assert Placed(s, t);
    }
  }

  lemma EnqueueKeepsInv(s: System, q: Queue, mutex: Id)
    requires SystemOk(s) && IsRunning(s) && InLoop(s.table[s.current].loc, q)
    ensures var r := Enqueue(s, q, mutex); SystemOk(r) && !IsRunning(r) && SameExcept(s, r, q)
    ensures var r := Enqueue(s, q, mutex);
            Waiters(r, q) == Waiters(s, q) + [s.current] && Woken(r, q) == Woken(s, q) - {s.current}
  {
    var r := Enqueue(s, q, mutex);
    assert Placed(s, s.current);
    forall t | t in r.table
      ensures Placed(r, t)
    {
      assert Placed(s, t);
    }
    forall p
      ensures QueueOk(r, p)
    {
      assert QueueOk(s, p);
      assert s.current !in Waiters(s, p);
    }
  }

  lemma FinishKeepsInv(s: System)
    requires SystemOk(s) && IsRunning(s) && s.table[s.current].loc == Code
    ensures SystemOk(Finish(s)) && SameQueues(s, Finish(s))
  {
    var r := Block(s.(toBeDestroyed := Some(s.current)), Finished);
    assert Placed(s, s.current);
    forall t | t in r.table
      ensures Placed(r, t)
    {
      assert Placed(s, t);
    }
    forall q
      ensures QueueOk(r, q)
    {
      assert QueueOk(s, q);
    }
    ScheduleKeepsInv(r);
  }

  lemma ScheduleKeepsInv(s: System)
    requires SystemOk(s) && !IsRunning(s)
    ensures SystemOk(Schedule(s)) && SameQueues(s, Schedule(s))
  {
    if s.ready != [] {
      RunNextKeepsInv(s);
    }
  }

  /** Sleeping on q: the current thread leaves the woken threads of q and joins its waiters. */
  lemma SleepKeepsInv(s: System, q: Queue, mutex: Id)
    requires SystemOk(s) && IsRunning(s) && InLoop(s.table[s.current].loc, q)
    ensures var r := Schedule(Enqueue(s, q, mutex));
            SystemOk(r) && SameExcept(s, r, q)
            && Waiters(r, q) == Waiters(s, q) + [s.current] && Woken(r, q) == Woken(s, q) - {s.current}
  {
    EnqueueKeepsInv(s, q, mutex);
    var m := Enqueue(s, q, mutex);
    ScheduleKeepsInv(m);
    var r := Schedule(m);
    assert SameQueue(m, r, q);
    forall p | p != q
      ensures SameQueue(s, r, p)
    {
      assert SameQueue(s, m, p) && SameQueue(m, r, p);
    }
  }

  lemma WakeKeepsInv(s: System, q: Queue)
    requires SystemOk(s)
    ensures forall t :: t in Waiters(s, q) ==> t in s.table
    ensures var r := Wake(s, q); SystemOk(r) && r.current == s.current && (IsRunning(r) <==> IsRunning(s))
    ensures SameExcept(s, Wake(s, q), q)
    ensures var r := Wake(s, q);
            if Waiters(s, q) == [] then r == s
            else Waiters(r, q) == Waiters(s, q)[1..] && Waiters(s, q)[0] !in Woken(s, q)
                 && Woken(r, q) == Woken(s, q) + {Waiters(s, q)[0]}
  {
    assert QueueOk(s, q);
    if Waiters(s, q) == [] { return; }
    var w := Waiters(s, q)[0];
    assert w in Waiters(s, q);
    assert WaitsOn(s, w, q) && Placed(s, w);
    var r := Wake(s, q);
    forall t | t in r.table
      ensures Placed(r, t)
    {
      assert Placed(s, t);
    }
    forall p
      ensures QueueOk(r, p)
    {
      assert QueueOk(s, p);
      forall t | t in Waiters(r, p)
        ensures WaitsOn(r, t, p)
      {
        assert t in Waiters(s, p) && WaitsOn(s, t, p) && t != w;
      }
    }
  }

  lemma YieldKeepsInv(s: System)
    requires SystemOk(s) && IsRunning(s)
    ensures var r := Yield(s); SystemOk(r) && IsRunning(r)
    ensures SameQueues(s, Yield(s))
  {
    if s.ready != [] {
      StepAsideKeepsInv(s);
      var mid := ReadyToRun(s, s.current);
      RunNextKeepsInv(mid);
      forall q
        ensures SameQueue(s, RunNext(mid), q)
      {
        assert SameQueue(s, mid, q) && SameQueue(mid, RunNext(mid), q);
      }
    }
  }

  /** The running thread joins the ready list. */
  lemma StepAsideKeepsInv(s: System)
    requires SystemOk(s) && IsRunning(s)
    ensures var r := ReadyToRun(s, s.current); SystemOk(r) && !IsRunning(r) && SameQueues(s, r)
  {
    var r := ReadyToRun(s, s.current);
    assert Placed(s, s.current);
    forall t | t in r.table
      ensures Placed(r, t)
    {
      assert Placed(s, t);
    }
    forall q
      ensures QueueOk(r, q)
    {
      assert QueueOk(s, q);
    }
  }

  lemma GoToKeepsInv(s: System, loc: Loc)
    requires SystemOk(s) && IsRunning(s) && loc != Finished
    ensures var r := GoTo(s, loc); SystemOk(r) && IsRunning(r)
  {
    var r := GoTo(s, loc);
    assert Placed(s, s.current);
    forall t | t in r.table
      ensures Placed(r, t)
    {
      assert Placed(s, t);
    }
    forall q
      ensures QueueOk(r, q)
    {
      assert QueueOk(s, q);
    }
  }

  /** Leaving the loop that waits on q takes the current thread out of the woken threads of q. */
  lemma GoToCodeKeepsInv(s: System, q: Queue)
    requires SystemOk(s) && IsRunning(s) && InLoop(s.table[s.current].loc, q)
    ensures var r := GoTo(s, Code);
            SystemOk(r) && IsRunning(r) && SameExcept(s, r, q)
            && Waiters(r, q) == Waiters(s, q) && Woken(r, q) == Woken(s, q) - {s.current}
  {
    GoToKeepsInv(s, Code);
  }

  lemma CreateKeepsInv(s: System, t: Tid)
    requires SystemOk(s) && t !in s.table
    ensures var r := Create(s, t);
            SystemOk(r) && SameQueues(s, r)
  {
    var r := Create(s, t);
    forall u | u in r.table
      ensures Placed(r, u)
    {
      assert u in s.table ==> Placed(s, u);
    }
    forall q
      ensures QueueOk(r, q)
    {
      assert QueueOk(s, q);
    }
  }

  lemma ForkKeepsInv(s: System, t: Tid)
    requires SystemOk(s) && t in s.table && s.table[t].status == JustCreated
    ensures var r := ReadyToRun(s, t);
            SystemOk(r) && SameQueues(s, r)
  {
    var r := ReadyToRun(s, t);
    assert Placed(s, t);
    forall u | u in r.table
      ensures Placed(r, u)
    {
      assert Placed(s, u);
    }
    forall q
      ensures QueueOk(r, q)
    {
      assert QueueOk(s, q);
    }
  }
}

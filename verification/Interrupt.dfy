/** The interrupt simulation (interrupt.cc): the clock, the sorted list of pending interrupts and
    the loops that fire them. */
module Interrupt {
  import opened Options
  import opened LinkedList

  const SYSTEM_TICK := 10
  const USER_TICK := 1

  datatype Level = IntOff | IntOn
  datatype Status = IdleMode | SystemMode | UserMode
  datatype Kind = TimerInt | DiskInt | ConsoleWriteInt | ConsoleReadInt | NetworkSendInt | NetworkRecvInt

  /** The handler to call, as a code address, its argument, and the device. */
  datatype Pending = Pending(handler: nat, arg: int, kind: Kind)

  /** What a handler does to the interrupt system: the interrupts it schedules, each `fromNow` ticks
      ahead, and whether it asks for a context switch on return. */
  datatype Wish = Wish(fromNow: int, what: Pending)
  datatype Effect = Effect(wishes: seq<Wish>, mayYield: bool)

  /** The n-th handler called has effect script(n).  Theorems hold for every script. */
  type Script = nat -> Effect

  ghost predicate Lawful(script: Script) {
    forall n: nat, i :: 0 <= i < |script(n).wishes| ==> script(n).wishes[i].fromNow > 0
  }

  datatype Fired = Fired(what: Pending, due: int, at: int)

  /** `fired` is the history of the handlers called: each with when it was due and when it was called. */
  datatype Machine = Machine(
    pending: seq<Entry<Pending>>,
    level: Level, inHandler: bool, yieldOnReturn: bool, status: Status,
    totalTicks: int, idleTicks: int, systemTicks: int, userTicks: int,
    fired: seq<Fired>)

  // ---------------------------------------------------------------- operations

  function Schedule(m: Machine, w: Wish): Machine {
    m.(pending := Inserted(m.pending, Entry(w.what, m.totalTicks + w.fromNow)))
  }

  function ScheduleAll(m: Machine, ws: seq<Wish>): Machine
    decreases |ws|
  {
    if ws == [] then m else ScheduleAll(Schedule(m, ws[0]), ws[1..])
  }

  /** Calling the handler of an interrupt. */
  function Call(m: Machine, e: Entry<Pending>, script: Script): Machine {
    var effect := script(|m.fired|);
    var m1 := ScheduleAll(m.(fired := m.fired + [Fired(e.item, e.key, m.totalTicks)]), effect.wishes);
    m1.(yieldOnReturn := m.yieldOnReturn || effect.mayYield)
  }

  /** The clock at which the head entry is looked at. */
  function Advanced(m: Machine, when: int, advanceClock: bool): Machine {
    if advanceClock && when > m.totalTicks then
      m.(idleTicks := m.idleTicks + (when - m.totalTicks), totalTicks := when)
    else m
  }

  /** Interrupt::CheckIfDue and whether it called a handler. */
  function CheckIfDue(m: Machine, advanceClock: bool, script: Script): (Machine, bool) {
    if m.pending == [] then (m, false)
    else
      var e := m.pending[0];
      Decide(Advanced(m, e.key, advanceClock).(pending := m.pending[1..]), e, script)
  }

  /** What happens to the entry taken: put back if it is not due or is the only thing left to wait for in
      an idle machine, fired otherwise. */
  function Decide(m: Machine, e: Entry<Pending>, script: Script): (Machine, bool) {
    if e.key > m.totalTicks then (m.(pending := Inserted(m.pending, e)), false)
    else if m.status == IdleMode && e.item.kind == TimerInt && m.pending == [] then
      (m.(pending := Inserted(m.pending, e)), false)
    else (Call(m, e, script), true)
  }

  /** The number of entries that are due. */
  function Due(s: seq<Entry<Pending>>, now: int): nat {
    if s == [] then 0 else (if s[0].key <= now then 1 else 0) + Due(s[1..], now)
  }

  /** The loop `while (CheckIfDue(FALSE));` */
  ghost function FireAll(m: Machine, script: Script): Machine
    requires Lawful(script)
    decreases Due(m.pending, m.totalTicks)
  {
    var (m1, again) := CheckIfDue(m, false, script);
    if !again then m1
    else FiringUsesUpDue(m, script); FireAll(m1, script)
  }

  /** The clock advances, and interrupts are off while handlers are called. */
  function Ticked(m: Machine): Machine {
    (if m.status == SystemMode then
       m.(totalTicks := m.totalTicks + SYSTEM_TICK, systemTicks := m.systemTicks + SYSTEM_TICK)
     else m.(totalTicks := m.totalTicks + USER_TICK, userTicks := m.userTicks + USER_TICK)).(level := IntOff)
  }

  /** Interrupt::OneTick up to the Yield it may end with. */
  ghost function OneTick(m: Machine, script: Script): Machine
    requires Lawful(script)
  {
    FireAll(Ticked(m), script).(level := IntOn)
  }

  /** Interrupt::Idle and whether the machine goes on, rather than halting. */
  ghost function Idle(m: Machine, script: Script): (Machine, bool)
    requires Lawful(script)
  {
    var (m1, fired) := CheckIfDue(m.(status := IdleMode), true, script);
    if fired then (FireAll(m1, script).(yieldOnReturn := false, status := SystemMode), true)
    else (m1, false)
  }

  // ---------------------------------------------------------------- counting what is due

  lemma {:induction false} DueInserted(s: seq<Entry<Pending>>, e: Entry<Pending>, now: int)
    ensures Due(Inserted(s, e), now) == Due(s, now) + (if e.key <= now then 1 else 0)
  {
    if s == [] || e.key < s[0].key {
      assert Inserted(s, e) == [e] + s;
    } else {
      assert Inserted(s, e) == [s[0]] + Inserted(s[1..], e);
      DueInserted(s[1..], e, now);
    }
  }

  lemma {:induction false} ScheduleAllIsLater(m: Machine, ws: seq<Wish>)
    requires forall i :: 0 <= i < |ws| ==> ws[i].fromNow > 0
    ensures var r := ScheduleAll(m, ws);
            Due(r.pending, m.totalTicks) == Due(m.pending, m.totalTicks) && r == m.(pending := r.pending)
    decreases |ws|
  {
    if ws != [] {
      DueInserted(m.pending, Entry(ws[0].what, m.totalTicks + ws[0].fromNow), m.totalTicks);
      ScheduleAllIsLater(Schedule(m, ws[0]), ws[1..]);
    }
  }

  /** Each firing leaves fewer due entries, although the handler may schedule new ones. */
  lemma FiringUsesUpDue(m: Machine, script: Script)
    requires Lawful(script) && CheckIfDue(m, false, script).1
    ensures var r := CheckIfDue(m, false, script).0;
            r.totalTicks == m.totalTicks && Due(r.pending, r.totalTicks) < Due(m.pending, m.totalTicks)
  {
    var e := m.pending[0];
    ScheduleAllIsLater(m.(pending := m.pending[1..], fired := m.fired + [Fired(e.item, e.key, m.totalTicks)]),
                       script(|m.fired|).wishes);
  }

  // ---------------------------------------------------------------- invariant

  /** The pending list is sorted; no handler was called early, and they were called in the order of
      their due times, all of which are before those still pending; every tick is accounted for. */
  ghost predicate Inv(m: Machine) {
    && Sorted(m.pending)
    && m.totalTicks == m.idleTicks + m.systemTicks + m.userTicks
    && (forall i :: 0 <= i < |m.fired| ==> m.fired[i].due <= m.fired[i].at <= m.totalTicks)
    && (forall i, j :: 0 <= i < j < |m.fired| ==> m.fired[i].due <= m.fired[j].due && m.fired[i].at <= m.fired[j].at)
    && (forall i, j :: 0 <= i < |m.fired| && 0 <= j < |m.pending| ==> m.fired[i].due <= m.pending[j].key)
  }

  /** Time only moves forward and history is only added to. */
  ghost predicate Later(m: Machine, r: Machine) {
    && m.totalTicks <= r.totalTicks && m.idleTicks <= r.idleTicks
    && m.systemTicks <= r.systemTicks && m.userTicks <= r.userTicks
    && m.fired <= r.fired
  }

  lemma InsertedFrom(s: seq<Entry<Pending>>, e: Entry<Pending>, low: int)
    requires Sorted(s) && low <= e.key && forall j :: 0 <= j < |s| ==> low <= s[j].key
    ensures Sorted(Inserted(s, e)) && forall j :: 0 <= j < |Inserted(s, e)| ==> low <= Inserted(s, e)[j].key
  {
    InsertedIsSorted(s, e);
  }

  lemma InsertKeepsInv(m: Machine, e: Entry<Pending>)
    requires Inv(m) && forall i :: 0 <= i < |m.fired| ==> m.fired[i].due <= e.key
    ensures Inv(m.(pending := Inserted(m.pending, e)))
  {
    InsertedIsSorted(m.pending, e);
    var r := Inserted(m.pending, e);
    forall i, j | 0 <= i < |m.fired| && 0 <= j < |r|
      ensures m.fired[i].due <= r[j].key
    {
      var p := InsertPoint(m.pending, e.key);
      assert r[j] == if j < p then m.pending[j] else if j == p then e else m.pending[j - 1];
    }
  }

  lemma {:induction false} ScheduleAllKeepsInv(m: Machine, ws: seq<Wish>)
    requires Inv(m) && forall i :: 0 <= i < |ws| ==> ws[i].fromNow > 0
    ensures Inv(ScheduleAll(m, ws)) && Later(m, ScheduleAll(m, ws))
    decreases |ws|
  {
    if ws != [] {
      ScheduleKeepsInv(m, ws[0]);
      ScheduleAllKeepsInv(Schedule(m, ws[0]), ws[1..]);
    }
  }

  lemma ScheduleKeepsInv(m: Machine, w: Wish)
    requires Inv(m) && w.fromNow > 0
    ensures Inv(Schedule(m, w)) && Later(m, Schedule(m, w))
  {
    var e := Entry(w.what, m.totalTicks + w.fromNow);
    forall i | 0 <= i < |m.fired|
      ensures m.fired[i].due <= e.key
    {
    }
    InsertKeepsInv(m, e);
    assert Schedule(m, w) == m.(pending := Inserted(m.pending, e));
  }

  lemma PopKeepsInv(m: Machine, advanceClock: bool)
    requires Inv(m) && m.pending != []
    ensures var m1 := Advanced(m, m.pending[0].key, advanceClock).(pending := m.pending[1..]);
            Inv(m1) && Later(m, m1) && m1.fired == m.fired
    ensures forall i :: 0 <= i < |m.fired| ==> m.fired[i].due <= m.pending[0].key
    ensures forall j :: 0 <= j < |m.pending[1..]| ==> m.pending[0].key <= m.pending[1..][j].key
  {
  }

  lemma FiringKeepsInv(m: Machine, what: Pending, due: int)
    requires Inv(m) && due <= m.totalTicks
    requires forall i :: 0 <= i < |m.fired| ==> m.fired[i].due <= due
    requires forall j :: 0 <= j < |m.pending| ==> due <= m.pending[j].key
    ensures Inv(m.(fired := m.fired + [Fired(what, due, m.totalTicks)]))
  {
  }

  lemma CheckKeepsInv(m: Machine, advanceClock: bool, script: Script)
    requires Inv(m) && Lawful(script)
    ensures var r := CheckIfDue(m, advanceClock, script).0; Inv(r) && Later(m, r)
  {
    if m.pending != [] {
      var e := m.pending[0];
      PopKeepsInv(m, advanceClock);
      var m1 := Advanced(m, e.key, advanceClock).(pending := m.pending[1..]);
      if CheckIfDue(m, advanceClock, script).1 {
        FiringKeepsInv(m1, e.item, e.key);
        ScheduleAllKeepsInv(m1.(fired := m1.fired + [Fired(e.item, e.key, m1.totalTicks)]), script(|m1.fired|).wishes);
      } else {
        InsertKeepsInv(m1, e);
      }
    }
  }

  lemma {:induction false} FireAllKeepsInv(m: Machine, script: Script)
    requires Inv(m) && Lawful(script)
    ensures Inv(FireAll(m, script)) && Later(m, FireAll(m, script))
    ensures FireAll(m, script).totalTicks == m.totalTicks && FireAll(m, script).status == m.status
    decreases Due(m.pending, m.totalTicks)
  {
    CheckKeepsInv(m, false, script);
    var (m1, again) := CheckIfDue(m, false, script);
    CallKeepsStatus(m, script);
    if again {
      FiringUsesUpDue(m, script);
      FireAllKeepsInv(m1, script);
    }
  }

  lemma CallKeepsStatus(m: Machine, script: Script)
    requires Lawful(script)
    ensures var r := CheckIfDue(m, false, script).0; r.status == m.status && r.totalTicks == m.totalTicks
  {
    if CheckIfDue(m, false, script).1 {
      ScheduleAllIsLater(m.(pending := m.pending[1..], fired := m.fired + [Fired(m.pending[0].item, m.pending[0].key, m.totalTicks)]),
                         script(|m.fired|).wishes);
    }
  }

  // ---------------------------------------------------------------- nothing due is left behind

  /** Every pending interrupt is in the future, except that an idling machine leaves a lone timer. */
  ghost predicate Quiet(m: Machine) {
    || (forall i :: 0 <= i < |m.pending| ==> m.totalTicks < m.pending[i].key)
    || (m.status == IdleMode && |m.pending| == 1 && m.pending[0].item.kind == TimerInt)
  }

  lemma {:induction false} FireAllIsQuiet(m: Machine, script: Script)
    requires Inv(m) && Lawful(script)
    ensures Quiet(FireAll(m, script))
    decreases Due(m.pending, m.totalTicks)
  {
    CheckKeepsInv(m, false, script);
    var (m1, again) := CheckIfDue(m, false, script);
    if again {
      FiringUsesUpDue(m, script);
      FireAllIsQuiet(m1, script);
    } else if m.pending != [] {
      InsertedFrom(m.pending[1..], m.pending[0], m.pending[0].key);
    }
  }

  /** When OneTick ends, every pending interrupt is strictly in the future. */
  lemma OneTickLeavesNothingDue(m: Machine, script: Script)
    requires Inv(m) && Lawful(script) && m.status != IdleMode
    ensures var r := OneTick(m, script); forall i :: 0 <= i < |r.pending| ==> r.totalTicks < r.pending[i].key
  {
    FireAllKeepsInv(Ticked(m), script);
    FireAllIsQuiet(Ticked(m), script);
  }

  /** When Idle goes on, the same holds except for a timer that is the only pending interrupt; when it
      halts, nothing but such a timer is pending. */
  lemma IdleLeavesNothingDue(m: Machine, script: Script)
    requires Inv(m) && Lawful(script)
    ensures var (r, goesOn) := Idle(m, script);
            if goesOn then Quiet(r.(status := IdleMode))
            else r.pending == [] || (|r.pending| == 1 && r.pending[0].item.kind == TimerInt)
  {
    CheckKeepsInv(m.(status := IdleMode), true, script);
    var (m1, fired) := CheckIfDue(m.(status := IdleMode), true, script);
    if fired {
      var e := m.pending[0];
      ScheduleAllStatus(Advanced(m.(status := IdleMode), e.key, true)
                        .(pending := m.pending[1..], fired := m.fired + [Fired(e.item, e.key, Advanced(m, e.key, true).totalTicks)]),
                        script(|m.fired|).wishes);
      FireAllKeepsInv(m1, script);
      FireAllIsQuiet(m1, script);
    }
  }

  lemma {:induction false} ScheduleAllStatus(m: Machine, ws: seq<Wish>)
    ensures ScheduleAll(m, ws).status == m.status
    decreases |ws|
  {
    if ws != [] { ScheduleAllStatus(Schedule(m, ws[0]), ws[1..]); }
  }

  // ---------------------------------------------------------------- ties

  /** Putting a head entry back that is not yet due moves it behind the entries due at the same time,
      so interrupts due together do not fire in the order they were scheduled.  The list stays as it
      was exactly when those entries are all alike. */
  lemma PutBackRotatesTies(e: Entry<Pending>, s: seq<Entry<Pending>>)
    requires Sorted(s) && forall i :: 0 <= i < |s| ==> e.key <= s[i].key
    ensures Inserted(s, e) == [e] + s <==> forall i :: 0 <= i < |s| && s[i].key == e.key ==> s[i] == e
  {
    var p := InsertPoint(s, e.key);
    InsertedIsSorted(s, e);
    if Inserted(s, e) == [e] + s {
      forall i | 0 <= i < |s| && s[i].key == e.key
        ensures s[i] == e
      {
        SameAsBefore(e, s, p, i);
      }
    }
    if forall i :: 0 <= i < |s| && s[i].key == e.key ==> s[i] == e {
      AlikeTiesStay(e, s, p);
    }
  }

  lemma AlikeTiesStay(e: Entry<Pending>, s: seq<Entry<Pending>>, p: nat)
    requires p <= |s| && forall i :: 0 <= i < p ==> s[i] == e
    ensures s[..p] + [e] + s[p..] == [e] + s
  {
    var r, line := s[..p] + [e] + s[p..], [e] + s;
    forall i | 0 <= i < |r|
      ensures r[i] == line[i]
    {
      assert i < p ==> r[i] == s[i];
      assert 0 < i ==> line[i] == s[i - 1];
    }
  }

  lemma {:induction false} SameAsBefore(e: Entry<Pending>, s: seq<Entry<Pending>>, p: nat, i: nat)
    requires i < p <= |s| && s[..p] + [e] + s[p..] == [e] + s
    ensures s[i] == e
  {
    assert (s[..p] + [e] + s[p..])[i] == s[i];
    if i > 0 {
      SameAsBefore(e, s, p, i - 1);
      assert ([e] + s)[i] == s[i - 1];
    }
  }

  // ---------------------------------------------------------------- whole runs

  datatype Event = Device(wish: Wish) | Tick | GoIdle | Enter(status: Status)

  ghost predicate Allowed(ev: Event) {
    ev.Device? ==> ev.wish.fromNow > 0
  }

  ghost function Step(m: Machine, ev: Event, script: Script): Machine
    requires Lawful(script)
  {
    match ev
    case Device(w) => Schedule(m, w)
    case Tick => OneTick(m, script)
    case GoIdle => Idle(m, script).0
    case Enter(st) => m.(status := st)
  }

  ghost function Exec(m: Machine, evs: seq<Event>, script: Script): Machine
    requires Lawful(script)
    decreases |evs|
  {
    if evs == [] then m else Exec(Step(m, evs[0], script), evs[1..], script)
  }

  lemma TickKeepsInv(m: Machine, script: Script)
    requires Inv(m) && Lawful(script)
    ensures Inv(OneTick(m, script)) && Later(m, OneTick(m, script))
  {
    assert Inv(Ticked(m)) && Later(m, Ticked(m));
    FireAllKeepsInv(Ticked(m), script);
  }

  lemma IdleKeepsInv(m: Machine, script: Script)
    requires Inv(m) && Lawful(script)
    ensures Inv(Idle(m, script).0) && Later(m, Idle(m, script).0)
  {
    CheckKeepsInv(m.(status := IdleMode), true, script);
    var (m1, fired) := CheckIfDue(m.(status := IdleMode), true, script);
    if fired { FireAllKeepsInv(m1, script); }
  }

  lemma StepKeepsInv(m: Machine, ev: Event, script: Script)
    requires Inv(m) && Lawful(script) && Allowed(ev)
    ensures Inv(Step(m, ev, script)) && Later(m, Step(m, ev, script))
  {
    match ev
    case Device(w) => ScheduleKeepsInv(m, w);
    case Tick => TickKeepsInv(m, script);
    case GoIdle => IdleKeepsInv(m, script);
    case Enter(st) =>
  }

  /** Over every run, whatever the handlers do: the pending list stays sorted, no handler is called
      before it is due, handlers are called in the order of their due times, the clock never goes back
      and equals the idle, system and user ticks together. */
  lemma {:induction false} EveryRunIsOrderly(m: Machine, evs: seq<Event>, script: Script)
    requires Inv(m) && Lawful(script) && forall i :: 0 <= i < |evs| ==> Allowed(evs[i])
    ensures Inv(Exec(m, evs, script)) && Later(m, Exec(m, evs, script))
    decreases |evs|
  {
    if evs != [] {
      StepKeepsInv(m, evs[0], script);
      EveryRunIsOrderly(Step(m, evs[0], script), evs[1..], script);
    }
  }

  // ---------------------------------------------------------------- the code

  lemma {:induction false} ModeIsIgnored(m: Machine, ws: seq<Wish>, status: Status, inHandler: bool)
    ensures ScheduleAll(m.(status := status, inHandler := inHandler), ws)
            == ScheduleAll(m, ws).(status := status, inHandler := inHandler)
    ensures ScheduleAll(m, ws).status == m.status && ScheduleAll(m, ws).inHandler == m.inHandler
    decreases |ws|
  {
    if ws != [] {
      ModeIsIgnored(Schedule(m, ws[0]), ws[1..], status, inHandler);
    }
  }

  /** The source's class, over the linked list of pending interrupts. */
  class InterruptSystem {
    const pending: List<Pending>
    var level: Level
    var inHandler: bool
    var yieldOnReturn: bool
    var status: Status
    var totalTicks: int
    var idleTicks: int
    var systemTicks: int
    var userTicks: int
    var calls: nat               // the number of handlers called, which selects their effects
    ghost var fired: seq<Fired>

    ghost predicate Valid()
      reads this, pending, pending.repr
    {
      pending.Valid() && this !in pending.repr && calls == |fired|
    }

    ghost function View(): Machine
      reads this, pending
    {
      Machine(pending.contents, level, inHandler, yieldOnReturn, status,
              totalTicks, idleTicks, systemTicks, userTicks, fired)
    }

    constructor ()
      ensures Valid() && fresh(pending) && fresh(pending.repr)
      ensures View() == Machine([], IntOff, false, false, SystemMode, 0, 0, 0, 0, [])
      ensures Inv(View())
    {
      pending := new List<Pending>();
      level, inHandler, yieldOnReturn, status := IntOff, false, false, SystemMode;
      totalTicks, idleTicks, systemTicks, userTicks, calls, fired := 0, 0, 0, 0, 0, [];
    }

    method ScheduleInt(w: Wish)
      requires Valid() && w.fromNow > 0
      modifies pending.repr
      ensures Valid() && fresh(pending.repr - old(pending.repr)) && View() == Schedule(old(View()), w)
    {
      var when := totalTicks + w.fromNow;
      pending.SortedInsert(w.what, when);
    }

    /** A handler schedules its wishes one by one. */
    method ScheduleWishes(ws: seq<Wish>)
      requires Valid() && forall i :: 0 <= i < |ws| ==> ws[i].fromNow > 0
      modifies pending.repr
      ensures Valid() && fresh(pending.repr - old(pending.repr)) && View() == ScheduleAll(old(View()), ws)
    {
      var i := 0;
      while i < |ws|
        invariant 0 <= i <= |ws| && Valid() && fresh(pending.repr - old(pending.repr))
        invariant ScheduleAll(View(), ws[i..]) == ScheduleAll(old(View()), ws)
      {
        ScheduleInt(ws[i]);
        i := i + 1;
      }
    }

    method CallHandler(ghost e: Entry<Pending>, script: Script)
      requires Valid() && Lawful(script)
      modifies this`fired, this`calls, this`yieldOnReturn, pending.repr
      ensures Valid() && fresh(pending.repr - old(pending.repr)) && View() == Call(old(View()), e, script)
    {
      var effect := script(calls);
      fired, calls := fired + [Fired(e.item, e.key, totalTicks)], calls + 1;
      ghost var m := View();
      ScheduleWishes(effect.wishes);
      ScheduleAllIsLater(m, effect.wishes);
      yieldOnReturn := yieldOnReturn || effect.mayYield;
    }

    /** The end of CheckIfDue: the handler runs in system mode. */
    method Invoke(ghost e: Entry<Pending>, script: Script)
      requires Valid() && Lawful(script) && !inHandler
      modifies this`fired, this`calls, this`yieldOnReturn, this`inHandler, this`status, pending.repr
      ensures Valid() && fresh(pending.repr - old(pending.repr)) && !inHandler
      ensures View() == Call(old(View()), e, script)
    {
      ModeIsIgnored(View().(fired := fired + [Fired(e.item, e.key, totalTicks)]), script(calls).wishes, SystemMode, true);
      var before := status;
      inHandler := true;
      status := SystemMode;
      CallHandler(e, script);
      status := before;
      inHandler := false;
    }

    method TakeHead() returns (e: Option<Entry<Pending>>)
      requires Valid()
      modifies pending.repr
      ensures Valid() && pending.repr == old(pending.repr)
      ensures var m := old(View());
              if m.pending == [] then e == None && View() == m
              else e == Some(m.pending[0]) && View() == m.(pending := m.pending[1..])
    {
      e := pending.SortedRemove();
    }

    method PutBack(e: Entry<Pending>)
      requires Valid()
      modifies pending.repr
      ensures Valid() && fresh(pending.repr - old(pending.repr))
      ensures View() == old(View()).(pending := Inserted(old(View()).pending, e))
    {
      pending.SortedInsert(e.item, e.key);
    }

    /** The second half of CheckIfDue. */
    method PutBackOrFire(e: Entry<Pending>, script: Script) returns (called: bool)
      requires Valid() && Lawful(script) && !inHandler
      modifies this`fired, this`calls, this`yieldOnReturn, this`inHandler, this`status, pending.repr
      ensures Valid() && fresh(pending.repr - old(pending.repr)) && !inHandler
      ensures (View(), called) == Decide(old(View()), e, script)
    {
      if e.key > totalTicks {
        PutBack(e);
        return false;
      }
      var empty := pending.IsEmpty();
      if status == IdleMode && e.item.kind == TimerInt && empty {
        PutBack(e);
        return false;
      }
      Invoke(e, script);
      return true;
    }

    method CheckDue(advanceClock: bool, script: Script) returns (called: bool)
      requires Valid() && Lawful(script) && level == IntOff && !inHandler
      modifies this`fired, this`calls, this`yieldOnReturn, this`inHandler, this`status
      modifies this`totalTicks, this`idleTicks, pending.repr
      ensures Valid() && fresh(pending.repr - old(pending.repr)) && !inHandler
      ensures (View(), called) == CheckIfDue(old(View()), advanceClock, script)
    {
      var toOccur := TakeNext(advanceClock);
      if toOccur == None { return false; }
      called := PutBackOrFire(toOccur.value, script);
    }

    method TakeNext(advanceClock: bool) returns (e: Option<Entry<Pending>>)
      requires Valid()
      modifies this`totalTicks, this`idleTicks, pending.repr
      ensures Valid() && pending.repr == old(pending.repr)
      ensures var m := old(View());
              if m.pending == [] then e == None && View() == m
              else e == Some(m.pending[0]) && View() == Advanced(m, m.pending[0].key, advanceClock).(pending := m.pending[1..])
    {
      e := TakeHead();
      if e != None {
        Skip(e.value.key, advanceClock);
      }
    }

    /** The clock goes forward to the next entry, if it may. */
    method Skip(when: int, advanceClock: bool)
      modifies this`totalTicks, this`idleTicks
      ensures View() == Advanced(old(View()), when, advanceClock)
    {
      if advanceClock && when > totalTicks {
        idleTicks := idleTicks + (when - totalTicks);
        totalTicks := when;
      }
    }

    /** The loop that fires everything that is due; it ends although handlers schedule more. */
    method FireDue(script: Script)
      requires Valid() && Lawful(script) && level == IntOff && !inHandler
      modifies this`fired, this`calls, this`yieldOnReturn, this`inHandler, this`status
      modifies this`totalTicks, this`idleTicks, pending.repr
      ensures Valid() && fresh(pending.repr - old(pending.repr)) && !inHandler
      ensures View() == FireAll(old(View()), script)
    {
      ghost var m := View();
      var again := CheckDue(false, script);
      while again
        invariant Valid() && fresh(pending.repr - old(pending.repr)) && !inHandler
        invariant (View(), again) == CheckIfDue(m, false, script)
        invariant FireAll(m, script) == FireAll(old(View()), script)
        decreases Due(m.pending, m.totalTicks)
      {
        FiringUsesUpDue(m, script);
        m := View();
        again := CheckDue(false, script);
      }
    }

    method AdvanceClock()
      modifies this`totalTicks, this`systemTicks, this`userTicks, this`level
      ensures View() == Ticked(old(View()))
    {
      if status == SystemMode {
        totalTicks := totalTicks + SYSTEM_TICK;
        systemTicks := systemTicks + SYSTEM_TICK;
      } else {
        totalTicks := totalTicks + USER_TICK;
        userTicks := userTicks + USER_TICK;
      }
      level := IntOff;
    }

    /** OneTick, and whether it ends with a Yield of the current thread. */
    method OneTickNow(script: Script) returns (switches: bool)
      requires Valid() && Lawful(script) && level == IntOn && !inHandler
      modifies this, pending.repr
      ensures Valid() && fresh(pending.repr - old(pending.repr))
      ensures switches == OneTick(old(View()), script).yieldOnReturn
      ensures View() == OneTick(old(View()), script).(yieldOnReturn := false)
    {
      AdvanceClock();
      FireDue(script);
      level := IntOn;
      switches := yieldOnReturn;
      yieldOnReturn := false;
    }

    /** Idle, and whether the machine goes on. */
    method IdleNow(script: Script) returns (goesOn: bool)
      requires Valid() && Lawful(script) && level == IntOff && !inHandler
      modifies this, pending.repr
      ensures Valid() && fresh(pending.repr - old(pending.repr))
      ensures (View(), goesOn) == Idle(old(View()), script)
    {
      status := IdleMode;
      goesOn := CheckDue(true, script);
      if goesOn {
        Settle(script);
      }
    }

    method Settle(script: Script)
      requires Valid() && Lawful(script) && level == IntOff && !inHandler
      modifies this, pending.repr
      ensures Valid() && fresh(pending.repr - old(pending.repr))
      ensures View() == FireAll(old(View()), script).(yieldOnReturn := false, status := SystemMode)
    {
      FireDue(script);
      yieldOnReturn := false;
      status := SystemMode;
    }
  }
}

/** What the clock, OneTick and Idle do (interrupt.cc): which handlers are called and when, when the machine
    halts, and that every interrupt scheduled is called once or still pending. */
module InterruptLaws {
  import opened LinkedList
  import opened Interrupt
  import O = InterruptOrder

  /** The only thing pending is the timer. */
  predicate LoneTimer(m: Machine) { |m.pending| == 1 && m.pending[0].item.kind == TimerInt }

  /** The clock when the first entry has been waited for. */
  function Reached(m: Machine): int {
    if m.pending != [] && m.totalTicks < m.pending[0].key then m.pending[0].key else m.totalTicks
  }

  // ---------------------------------------------------------------- one check

  predicate CallsNow(m: Machine, advanceClock: bool) {
    && m.pending != [] && (advanceClock || m.pending[0].key <= m.totalTicks)
    && !(m.status == IdleMode && LoneTimer(m))
  }

  /** What a check does to the clock and to everything but the pending list. */
  ghost predicate ChecksTo(m: Machine, advanceClock: bool, r: Machine, called: bool, script: Script)
    requires called ==> m.pending != []
  {
    && r.totalTicks == (if advanceClock then Reached(m) else m.totalTicks)
    && r.idleTicks - m.idleTicks == r.totalTicks - m.totalTicks
    && r.systemTicks == m.systemTicks && r.userTicks == m.userTicks && r.status == m.status
    && r.fired == m.fired + (if called then [Fired(m.pending[0].item, m.pending[0].key, r.totalTicks)] else [])
    && (r.yieldOnReturn <==> m.yieldOnReturn || (called && script(|m.fired|).mayYield))
  }

  /** CheckIfDue calls a handler exactly when there is a first entry, its time has come or may be waited for,
      and it is not a timer that an idle machine has nothing else to wait for. */
  lemma CheckCallsExactlyWhen(m: Machine, advanceClock: bool, script: Script)
    requires Sorted(m.pending) && Lawful(script)
    ensures var (r, called) := CheckIfDue(m, advanceClock, script);
            && (called <==> CallsNow(m, advanceClock)) && (called ==> m.pending != [])
            && ChecksTo(m, advanceClock, r, called, script)
  {
    if CallsNow(m, advanceClock) {
      CalledOne(Advanced(m, m.pending[0].key, advanceClock).(pending := m.pending[1..]), m.pending[0], script);
    }
  }

  lemma CalledOne(m: Machine, e: Entry<Pending>, script: Script)
    requires Lawful(script)
    ensures var r := Call(m, e, script);
            && r == m.(pending := r.pending, fired := r.fired, yieldOnReturn := r.yieldOnReturn)
            && r.fired == m.fired + [Fired(e.item, e.key, m.totalTicks)]
            && (r.yieldOnReturn <==> m.yieldOnReturn || script(|m.fired|).mayYield)
  {
    ScheduleAllIsLater(m.(fired := m.fired + [Fired(e.item, e.key, m.totalTicks)]), script(|m.fired|).wishes);
  }

  // ---------------------------------------------------------------- idling

  /** Idle halts exactly when nothing is pending or only the timer is; nothing has then been called and the
      pending list is as it was. Otherwise the clock has gone to the first entry, whose handler is the next one
      called, and the machine goes on in the kernel with no switch asked for. */
  lemma IdleHaltsExactlyWhen(m: Machine, script: Script)
    requires Inv(m) && Lawful(script)
    ensures var (r, goesOn) := Idle(m, script);
            && (!goesOn <==> m.pending == [] || LoneTimer(m))
            && r.totalTicks == Reached(m) && r.idleTicks - m.idleTicks == Reached(m) - m.totalTicks
            && r.systemTicks == m.systemTicks && r.userTicks == m.userTicks
            && (!goesOn ==> r.fired == m.fired && r.pending == m.pending && r.status == IdleMode)
            && (goesOn ==>
                  && m.fired + [Fired(m.pending[0].item, m.pending[0].key, Reached(m))] <= r.fired
                  && r.status == SystemMode && !r.yieldOnReturn)
  {
    var m0 := m.(status := IdleMode);
    var (m1, called) := CheckIfDue(m0, true, script);
    CheckCallsExactlyWhen(m0, true, script);
    if called {
      CheckKeepsInv(m0, true, script);
      FireAllKeepsInv(m1, script);
      FireAllKeepsCounters(m1, script);
    } else if m.pending != [] {
      assert m.pending[1..] == [] && Inserted([], m.pending[0]) == [m.pending[0]];
      assert m.pending == [m.pending[0]];
    }
  }

  lemma {:induction false} FireAllKeepsCounters(m: Machine, script: Script)
    requires Sorted(m.pending) && Lawful(script)
    ensures var r := FireAll(m, script);
            && r.totalTicks == m.totalTicks && r.idleTicks == m.idleTicks
            && r.systemTicks == m.systemTicks && r.userTicks == m.userTicks
    decreases Due(m.pending, m.totalTicks)
  {
    CheckCallsExactlyWhen(m, false, script);
    var (m1, again) := CheckIfDue(m, false, script);
    if again {
      FiringUsesUpDue(m, script);
      CheckKeepsSorted(m, script);
      FireAllKeepsCounters(m1, script);
    }
  }

  lemma CheckKeepsSorted(m: Machine, script: Script)
    requires Sorted(m.pending) && Lawful(script)
    ensures Sorted(CheckIfDue(m, false, script).0.pending)
  {
    if m.pending != [] {
      var e := m.pending[0];
      InsertedIsSorted(m.pending[1..], e);
      O.WishesGoBehind(m.(pending := m.pending[1..], fired := m.fired + [Fired(e.item, e.key, m.totalTicks)]),
                       script(|m.fired|).wishes, 0);
    }
  }

  // ---------------------------------------------------------------- ticks

  lemma {:induction false} DueFirst(s: seq<Entry<Pending>>, now: int)
    requires Sorted(s)
    ensures Due(s, now) <= |s|
    ensures forall i :: 0 <= i < |s| ==> (i < Due(s, now) <==> s[i].key <= now)
  {
    if s != [] {
      DueFirst(s[1..], now);
      if s[0].key > now {
        assert forall i :: 0 <= i < |s[1..]| ==> s[1..][i] == s[i + 1];
      }
    }
  }

  /** A machine that is not idle calls exactly the handlers that are due, in the order of the list. */
  lemma {:induction false} FireAllCallsExactlyDue(m: Machine, script: Script)
    requires Sorted(m.pending) && Lawful(script) && m.status != IdleMode
    ensures var c := Due(m.pending, m.totalTicks);
            c <= |m.pending| && FireAll(m, script).fired == m.fired + O.Firings(m.pending[..c], m.totalTicks)
    decreases Due(m.pending, m.totalTicks)
  {
    var c := Due(m.pending, m.totalTicks);
    DueFirst(m.pending, m.totalTicks);
    if c == 0 {
      CheckCallsExactlyWhen(m, false, script);
      assert m.fired + O.Firings(m.pending[..0], m.totalTicks) == m.fired;
    } else {
      var r := O.HeadFires(m, c, script);
      FiringUsesUpDue(m, script);
      DueAfterFiring(m, script);
      FireAllCallsExactlyDue(r, script);
      O.FireAllStep(m, r, script);
      OneMoreFiring(m.fired, m.pending[..c], m.totalTicks);
    }
  }

  lemma OneMoreFiring(fired: seq<Fired>, due: seq<Entry<Pending>>, now: int)
    requires due != []
    ensures fired + O.Firings(due, now) == fired + [Fired(due[0].item, due[0].key, now)] + O.Firings(due[1..], now)
  {
    O.FiringsMoveUp(due, now);
  }

  lemma DueAfterFiring(m: Machine, script: Script)
    requires Lawful(script) && CheckIfDue(m, false, script).1 && m.pending != [] && m.pending[0].key <= m.totalTicks
    ensures var r := CheckIfDue(m, false, script).0;
            Due(r.pending, r.totalTicks) == Due(m.pending, m.totalTicks) - 1
  {
    var e := m.pending[0];
    ScheduleAllIsLater(m.(pending := m.pending[1..], fired := m.fired + [Fired(e.item, e.key, m.totalTicks)]),
                       script(|m.fired|).wishes);
  }

  lemma {:induction false} FireAllKeepsStatus(m: Machine, script: Script)
    requires Lawful(script)
    ensures FireAll(m, script).status == m.status
    decreases Due(m.pending, m.totalTicks)
  {
    CallKeepsStatus(m, script);
    var (m1, again) := CheckIfDue(m, false, script);
    if again {
      FiringUsesUpDue(m, script);
      FireAllKeepsStatus(m1, script);
    }
  }

  /** OneTick takes 10 ticks in the kernel and 1 in a user program. */
  lemma OneTickTakes(m: Machine, script: Script)
    requires Sorted(m.pending) && Lawful(script)
    ensures var r := OneTick(m, script);
            && r.totalTicks == m.totalTicks + (if m.status == SystemMode then 10 else 1)
            && (if m.status == SystemMode then r.systemTicks == m.systemTicks + 10 && r.userTicks == m.userTicks
                else r.userTicks == m.userTicks + 1 && r.systemTicks == m.systemTicks)
            && r.idleTicks == m.idleTicks && r.status == m.status && r.level == IntOn
  {
    FireAllKeepsCounters(Ticked(m), script);
    FireAllKeepsStatus(Ticked(m), script);
  }

  /** After the tick it calls exactly the handlers that are due by then, in the order of the list. */
  lemma OneTickCallsExactlyDue(m: Machine, script: Script, now: int)
    requires Sorted(m.pending) && Lawful(script) && m.status != IdleMode
    requires now == m.totalTicks + if m.status == SystemMode then 10 else 1
    ensures var c := Due(m.pending, now);
            && c <= |m.pending| && (forall i :: 0 <= i < |m.pending| ==> (i < c <==> m.pending[i].key <= now))
            && OneTick(m, script).fired == m.fired + O.Firings(m.pending[..c], now)
  {
    DueFirst(m.pending, now);
    FireAllCallsExactlyDue(Ticked(m), script);
  }

  /** It asks for a switch exactly when one was asked for before or a handler it called asks. */
  lemma {:induction false} YieldsExactlyWhenAsked(m: Machine, script: Script)
    requires Sorted(m.pending) && Lawful(script)
    ensures var r := FireAll(m, script);
            && |m.fired| <= |r.fired|
            && (r.yieldOnReturn <==> m.yieldOnReturn || exists n :: |m.fired| <= n < |r.fired| && script(n).mayYield)
    decreases Due(m.pending, m.totalTicks)
  {
    CheckCallsExactlyWhen(m, false, script);
    var (m1, again) := CheckIfDue(m, false, script);
    if again {
      FiringUsesUpDue(m, script);
      CheckKeepsSorted(m, script);
      YieldsExactlyWhenAsked(m1, script);
      assert script(|m.fired|).mayYield ==> |m.fired| <= |m.fired| < |FireAll(m, script).fired|;
    }
  }

  // ---------------------------------------------------------------- nothing is lost or called twice

  function One(x: Entry<Pending>, e: Entry<Pending>): nat { if x == e then 1 else 0 }

  /** How often the entry is pending. */
  function Times(s: seq<Entry<Pending>>, e: Entry<Pending>): nat {
    if s == [] then 0 else One(s[0], e) + Times(s[1..], e)
  }

  function Wished(ws: seq<Wish>, now: int, e: Entry<Pending>): nat {
    if ws == [] then 0 else One(Entry(ws[0].what, now + ws[0].fromNow), e) + Wished(ws[1..], now, e)
  }

  /** How often the handlers called since the history had length n have scheduled the entry. */
  ghost function Asked(fired: seq<Fired>, n: nat, script: Script, e: Entry<Pending>): nat
    requires n <= |fired|
    decreases |fired| - n
  {
    if n == |fired| then 0 else Wished(script(n).wishes, fired[n].at, e) + Asked(fired, n + 1, script, e)
  }

  /** How often the entry was called since then. */
  ghost function Called(fired: seq<Fired>, n: nat, e: Entry<Pending>): nat
    requires n <= |fired|
    decreases |fired| - n
  {
    if n == |fired| then 0 else One(Entry(fired[n].what, fired[n].due), e) + Called(fired, n + 1, e)
  }

  /** From m to r the entry, if it was pending, or scheduled by a handler or from outside, is either pending or
      was called, as often as it was scheduled. */
  ghost predicate Conserves(m: Machine, r: Machine, given: nat, script: Script, e: Entry<Pending>) {
    && m.fired <= r.fired
    && Times(r.pending, e) + Called(r.fired, |m.fired|, e) == Times(m.pending, e) + given + Asked(r.fired, |m.fired|, script, e)
  }

  lemma {:induction false} InsertedTimes(s: seq<Entry<Pending>>, x: Entry<Pending>, e: Entry<Pending>)
    ensures Times(Inserted(s, x), e) == Times(s, e) + One(x, e)
  {
    if s == [] || x.key < s[0].key {
      assert Inserted(s, x) == [x] + s;
    } else {
      assert Inserted(s, x) == [s[0]] + Inserted(s[1..], x);
      InsertedTimes(s[1..], x, e);
    }
  }

  lemma ScheduleAdds(m: Machine, w: Wish, e: Entry<Pending>)
    ensures Schedule(m, w) == m.(pending := Schedule(m, w).pending)
    ensures Times(Schedule(m, w).pending, e) == Times(m.pending, e) + One(Entry(w.what, m.totalTicks + w.fromNow), e)
  {
    InsertedTimes(m.pending, Entry(w.what, m.totalTicks + w.fromNow), e);
  }

  lemma {:induction false} ScheduleAllAdds(m: Machine, ws: seq<Wish>, e: Entry<Pending>)
    ensures Times(ScheduleAll(m, ws).pending, e) == Times(m.pending, e) + Wished(ws, m.totalTicks, e)
    decreases |ws|
  {
    if ws != [] {
      ScheduleAdds(m, ws[0], e);
      ScheduleAllAdds(Schedule(m, ws[0]), ws[1..], e);
    }
  }

  lemma OneCalled(fired: seq<Fired>, n: nat, script: Script, e: Entry<Pending>)
    requires |fired| == n + 1
    ensures Called(fired, n, e) == One(Entry(fired[n].what, fired[n].due), e)
    ensures Asked(fired, n, script, e) == Wished(script(n).wishes, fired[n].at, e)
  {
    assert Called(fired, n + 1, e) == 0 && Asked(fired, n + 1, script, e) == 0;
  }

  lemma CallAdds(m: Machine, x: Entry<Pending>, script: Script, e: Entry<Pending>)
    requires Lawful(script)
    ensures Times(Call(m, x, script).pending, e) == Times(m.pending, e) + Wished(script(|m.fired|).wishes, m.totalTicks, e)
  {
    ScheduleAllAdds(m.(fired := m.fired + [Fired(x.item, x.key, m.totalTicks)]), script(|m.fired|).wishes, e);
  }

  lemma CheckConserves(m: Machine, advanceClock: bool, script: Script, e: Entry<Pending>)
    requires Sorted(m.pending) && Lawful(script)
    ensures Conserves(m, CheckIfDue(m, advanceClock, script).0, 0, script, e)
  {
    CheckCallsExactlyWhen(m, advanceClock, script);
    var (r, called) := CheckIfDue(m, advanceClock, script);
    if m.pending != [] {
      var x := m.pending[0];
      var m1 := Advanced(m, x.key, advanceClock).(pending := m.pending[1..]);
      if called {
        CallAdds(m1, x, script, e);
        OneCalled(r.fired, |m.fired|, script, e);
      } else {
        InsertedTimes(m1.pending, x, e);
      }
    }
  }

  /** The histories add up. */
  lemma {:induction false} HistorySplits(a: seq<Fired>, b: seq<Fired>, n: nat, script: Script, e: Entry<Pending>)
    requires n <= |a| && a <= b
    ensures Called(b, n, e) == Called(a, n, e) + Called(b, |a|, e)
    ensures Asked(b, n, script, e) == Asked(a, n, script, e) + Asked(b, |a|, script, e)
    decreases |a| - n
  {
    if n < |a| {
      HistorySplits(a, b, n + 1, script, e);
    }
  }

  lemma ConservesChain(m: Machine, r: Machine, t: Machine, x: nat, y: nat, script: Script, e: Entry<Pending>)
    requires Conserves(m, r, x, script, e) && Conserves(r, t, y, script, e)
    ensures Conserves(m, t, x + y, script, e)
  {
    HistorySplits(r.fired, t.fired, |m.fired|, script, e);
  }

  lemma {:induction false} FireAllConserves(m: Machine, script: Script, e: Entry<Pending>)
    requires Sorted(m.pending) && Lawful(script)
    ensures Conserves(m, FireAll(m, script), 0, script, e)
    decreases Due(m.pending, m.totalTicks)
  {
    CheckConserves(m, false, script, e);
    var (m1, again) := CheckIfDue(m, false, script);
    if again {
      FiringUsesUpDue(m, script);
      CheckKeepsSorted(m, script);
      FireAllConserves(m1, script, e);
      ConservesChain(m, m1, FireAll(m, script), 0, 0, script, e);
    }
  }

  lemma IdleConserves(m: Machine, script: Script, e: Entry<Pending>)
    requires Inv(m) && Lawful(script)
    ensures Conserves(m, Idle(m, script).0, 0, script, e)
  {
    var m0 := m.(status := IdleMode);
    CheckConserves(m0, true, script, e);
    CheckKeepsInv(m0, true, script);
    var (m1, called) := CheckIfDue(m0, true, script);
    if called {
      FireAllConserves(m1, script, e);
      ConservesChain(m, m1, FireAll(m1, script), 0, 0, script, e);
    }
  }

  function GivenBy(m: Machine, ev: Event, e: Entry<Pending>): nat {
    if ev.Device? then One(Entry(ev.wish.what, m.totalTicks + ev.wish.fromNow), e) else 0
  }

  /** How often devices schedule the entry in a run. */
  ghost function Given(m: Machine, evs: seq<Event>, script: Script, e: Entry<Pending>): nat
    requires Lawful(script)
    decreases |evs|
  {
    if evs == [] then 0 else GivenBy(m, evs[0], e) + Given(Step(m, evs[0], script), evs[1..], script, e)
  }

  lemma DeviceConserves(m: Machine, w: Wish, script: Script, e: Entry<Pending>)
    ensures Conserves(m, Schedule(m, w), One(Entry(w.what, m.totalTicks + w.fromNow), e), script, e)
  {
    ScheduleAdds(m, w, e);
  }

  lemma TickConserves(m: Machine, script: Script, e: Entry<Pending>)
    requires Sorted(m.pending) && Lawful(script)
    ensures Conserves(m, OneTick(m, script), 0, script, e)
  {
    FireAllConserves(Ticked(m), script, e);
  }

  lemma StepConserves(m: Machine, ev: Event, script: Script, e: Entry<Pending>)
    requires Inv(m) && Lawful(script) && Allowed(ev)
    ensures Conserves(m, Step(m, ev, script), GivenBy(m, ev, e), script, e)
  {
    match ev
    case Device(w) => DeviceConserves(m, w, script, e);
    case Tick => TickConserves(m, script, e);
    case GoIdle => IdleConserves(m, script, e);
    case Enter(_) =>
  }

  /** Over every run, every interrupt that a device or a handler schedules is called exactly once, with the
      handler, argument and due time it was scheduled with, or is still pending with them. */
  lemma {:induction false} EveryInterruptOnce(m: Machine, evs: seq<Event>, script: Script, e: Entry<Pending>)
    requires Inv(m) && Lawful(script) && forall i :: 0 <= i < |evs| ==> Allowed(evs[i])
    ensures Conserves(m, Exec(m, evs, script), Given(m, evs, script, e), script, e)
    decreases |evs|
  {
    if evs != [] {
      StepConserves(m, evs[0], script, e);
      StepKeepsInv(m, evs[0], script);
      var m1 := Step(m, evs[0], script);
      EveryInterruptOnce(m1, evs[1..], script, e);
      ConservesChain(m, m1, Exec(m, evs, script), GivenBy(m, evs[0], e), Given(m1, evs[1..], script, e), script, e);
    }
  }
}

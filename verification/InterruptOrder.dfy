/** The order in which interrupts fire that are due at the same time. */
module InterruptOrder {
  import opened LinkedList
  import opened Interrupt

  // ---------------------------------------------------------------- rotations

  function RotatedOnce<T>(s: seq<T>): (r: seq<T>)
    ensures |r| == |s|
  {
    if s == [] then [] else s[1..] + [s[0]]
  }

  function Rotated<T>(s: seq<T>, n: nat): (r: seq<T>)
    ensures |r| == |s|
  {
    if n == 0 then s else RotatedOnce(Rotated(s, n - 1))
  }

  lemma {:induction false} RotatedAt<T>(s: seq<T>, n: nat, i: nat)
    requires i < |s|
    ensures Rotated(s, n)[i] == s[(i + n) % |s|]
  {
    if n == 0 {
      NextIndex(i, n, |s|);
    } else if i + 1 < |s| {
      RotatedAt(s, n - 1, i + 1);
      assert i + 1 + (n - 1) == i + n;
    } else {
      RotatedAt(s, n - 1, 0);
      NextIndex(i, n, |s|);
    }
  }

  lemma NextIndex(i: nat, n: nat, t: nat)
    requires i < t
    ensures n == 0 ==> (i + n) % t == i
    ensures n > 0 && i + 1 == t ==> (i + n) % t == (n - 1) % t
  {
    if n > 0 && i + 1 == t {
      assert i + n == t + (n - 1);
      PlusModulus(n - 1, t);
    }
  }

  lemma PlusModulus(k: nat, t: nat)
    requires t > 0
    ensures (t + k) % t == k % t
  {
    var q, r := k / t, k % t;
    assert t + k == (q + 1) * t + r;
    Remainder(q + 1, t, r);
  }

  lemma Remainder(q: nat, t: nat, r: nat)
    requires r < t
    ensures (q * t + r) % t == r
  {
    var k := q * t + r;
    DivisionIsUnique(q, k / t, t, r, k % t);
  }

  lemma DivisionIsUnique(q: int, a: int, t: int, r: int, b: int)
    requires 0 <= r < t && 0 <= b < t && q * t + r == a * t + b
    ensures r == b
  {
    assert (q - a) * t == b - r;
    SmallMultiple(q - a, t);
  }

  lemma SmallMultiple(d: int, t: int)
    requires -t < d * t < t
    ensures d == 0
  {
    if d >= 1 {
      AtLeastOnce(d, t);
    } else if d <= -1 {
      AtLeastOnce(-d, t);
    }
  }

  lemma AtLeastOnce(d: int, t: int)
    requires d >= 1 && t > 0
    ensures d * t >= t
  {
  }

  // ---------------------------------------------------------------- waiting

  /** The number of entries due together with the first. */
  function TieCount(s: seq<Entry<Pending>>): (t: nat)
    requires s != []
    ensures t <= |s|
  {
    InsertPoint(s, s[0].key)
  }

  lemma TiesFirst(s: seq<Entry<Pending>>)
    requires Sorted(s) && s != []
    ensures var t := TieCount(s);
            && 0 < t && InsertPoint(s[1..], s[0].key) == t - 1
            && (forall i :: 0 <= i < t ==> s[i].key == s[0].key) && (forall i :: t <= i < |s| ==> s[0].key < s[i].key)
  {
  }

  /** Looking at entries that are not due moves the first behind those due at the same time. */
  lemma NotDueRotates(m: Machine, script: Script)
    requires Sorted(m.pending) && m.pending != [] && m.totalTicks < m.pending[0].key
    ensures var t := TieCount(m.pending);
            CheckIfDue(m, false, script) == (m.(pending := RotatedOnce(m.pending[..t]) + m.pending[t..]), false)
  {
    PutBackRotates(m.pending);
  }

  lemma PutBackRotates(s: seq<Entry<Pending>>)
    requires Sorted(s) && s != []
    ensures var t := TieCount(s); Inserted(s[1..], s[0]) == RotatedOnce(s[..t]) + s[t..]
  {
    var t := TieCount(s);
    TiesFirst(s);
    assert s[1..][..t - 1] == s[..t][1..] && s[1..][t - 1..] == s[t..];
  }

  ghost function Ticks(m: Machine, n: nat, script: Script): Machine
    requires Lawful(script)
  {
    if n == 0 then m else OneTick(Ticks(m, n - 1, script), script)
  }

  /** The ticks that n calls of OneTick take. */
  function Elapsed(m: Machine, n: nat): int { if m.status == SystemMode then SYSTEM_TICK * n else USER_TICK * n }

  /** The machine waits with the ties first, rotated n times. */
  ghost predicate Waiting(m: Machine, r: Machine, n: nat)
    requires m.pending != []
  {
    var t := TieCount(m.pending);
    && r.pending == Rotated(m.pending[..t], n) + m.pending[t..] && r.fired == m.fired && r.status == m.status
    && r.totalTicks == m.totalTicks + Elapsed(m, n)
  }

  lemma RotatedTies(s: seq<Entry<Pending>>, n: nat)
    requires Sorted(s) && s != []
    ensures var t := TieCount(s);
            var r := Rotated(s[..t], n) + s[t..];
            Sorted(r) && r != [] && r[0].key == s[0].key && TieCount(r) == t && r[..t] == Rotated(s[..t], n) && r[t..] == s[t..]
  {
    var t := TieCount(s);
    TiesFirst(s);
    var ties, r := Rotated(s[..t], n), Rotated(s[..t], n) + s[t..];
    forall i | 0 <= i < t
      ensures ties[i].key == s[0].key
    {
      RotatedAt(s[..t], n, i);
    }
    assert forall i :: 0 <= i < t ==> r[i] == ties[i];
    assert forall i :: t <= i < |r| ==> r[i] == s[i];
  }

  /** n ticks with nothing due rotate the ties n times. */
  lemma {:induction false} WaitingRotates(m: Machine, n: nat, script: Script)
    requires Sorted(m.pending) && m.pending != [] && Lawful(script) && m.totalTicks + Elapsed(m, n) < m.pending[0].key
    ensures Waiting(m, Ticks(m, n, script), n)
  {
    if n > 0 {
      WaitingRotates(m, n - 1, script);
      QuietTick(m, Ticks(m, n - 1, script), n, script);
    }
  }

  lemma QuietTick(m: Machine, r: Machine, n: nat, script: Script)
    requires Sorted(m.pending) && m.pending != [] && Lawful(script) && m.totalTicks + Elapsed(m, n) < m.pending[0].key
    requires n > 0 && Waiting(m, r, n - 1)
    ensures Waiting(m, OneTick(r, script), n)
  {
    var t := TieCount(m.pending);
    RotatedTies(m.pending, n - 1);
    NotDueRotates(Ticked(r), script);
    assert OneTick(r, script).pending == RotatedOnce(r.pending[..t]) + r.pending[t..];
  }

  // ---------------------------------------------------------------- firing

  lemma InsertedBehind(s: seq<Entry<Pending>>, e: Entry<Pending>, c: nat)
    requires Sorted(s) && c <= |s| && forall i :: 0 <= i < c ==> s[i].key < e.key
    ensures var r := Inserted(s, e);
            Sorted(r) && |r| == |s| + 1 && r[..c] == s[..c] && forall i :: 0 <= i < c ==> r[i] == s[i]
  {
    InsertedIsSorted(s, e);
  }

  /** What a handler schedules goes behind everything that is due. */
  lemma {:induction false} WishesGoBehind(m: Machine, ws: seq<Wish>, c: nat)
    requires Sorted(m.pending) && c <= |m.pending| && (forall i :: 0 <= i < c ==> m.pending[i].key <= m.totalTicks)
    requires forall i :: 0 <= i < |ws| ==> ws[i].fromNow > 0
    ensures var r := ScheduleAll(m, ws);
            && Sorted(r.pending) && c <= |r.pending| && r.pending[..c] == m.pending[..c] && r == m.(pending := r.pending)
    decreases |ws|
  {
    if ws != [] {
      InsertedBehind(m.pending, Entry(ws[0].what, m.totalTicks + ws[0].fromNow), c);
      WishesGoBehind(Schedule(m, ws[0]), ws[1..], c);
    }
  }

  function Firings(s: seq<Entry<Pending>>, now: int): (r: seq<Fired>)
    ensures |r| == |s| && forall i :: 0 <= i < |s| ==> r[i] == Fired(s[i].item, s[i].key, now)
  {
    seq(|s|, i requires 0 <= i < |s| => Fired(s[i].item, s[i].key, now))
  }

  /** One firing of the head: the rest of what is due moves up. */
  lemma HeadFires(m: Machine, c: nat, script: Script) returns (r: Machine)
    requires Sorted(m.pending) && Lawful(script) && m.status != IdleMode
    requires 0 < c <= |m.pending| && forall i :: 0 <= i < c ==> m.pending[i].key <= m.totalTicks
    ensures CheckIfDue(m, false, script) == (r, true)
    ensures Sorted(r.pending) && r.status == m.status && r.totalTicks == m.totalTicks
    ensures c - 1 <= |r.pending| && r.pending[..c - 1] == m.pending[..c][1..]
    ensures r.fired == m.fired + [Fired(m.pending[0].item, m.pending[0].key, m.totalTicks)]
  {
    var e := m.pending[0];
    var m0 := m.(pending := m.pending[1..], fired := m.fired + [Fired(e.item, e.key, m.totalTicks)]);
    assert forall i :: 0 <= i < c - 1 ==> m0.pending[i] == m.pending[i + 1];
    WishesGoBehind(m0, script(|m.fired|).wishes, c - 1);
    assert m0.pending[..c - 1] == m.pending[..c][1..];
    r := CheckIfDue(m, false, script).0;
  }

  lemma FireAllStep(m: Machine, r: Machine, script: Script)
    requires Lawful(script) && CheckIfDue(m, false, script) == (r, true)
    ensures FireAll(m, script) == FireAll(r, script)
  {
    FiringUsesUpDue(m, script);
  }

  lemma FiringsMoveUp(s: seq<Entry<Pending>>, now: int)
    requires s != []
    ensures Firings(s, now) == [Fired(s[0].item, s[0].key, now)] + Firings(s[1..], now)
  {
  }

  lemma Regrouped<T>(a: seq<T>, x: T, b: seq<T>, all: seq<T>)
    requires a + [x] + b <= all
    ensures a + ([x] + b) <= all
  {
    assert a + ([x] + b) == a + [x] + b;
  }

  /** Entries that are due fire in the order of the list, before anything else. */
  lemma {:induction false} DueFireInListOrder(m: Machine, c: nat, script: Script)
    requires Sorted(m.pending) && Lawful(script) && m.status != IdleMode
    requires c <= |m.pending| && forall i :: 0 <= i < c ==> m.pending[i].key <= m.totalTicks
    ensures m.fired + Firings(m.pending[..c], m.totalTicks) <= FireAll(m, script).fired
    decreases c
  {
    if c == 0 {
      FireAllExtends(m, script);
    } else {
      var m1 := HeadFires(m, c, script);
      FireAllStep(m, m1, script);
      StillDue(m.pending, m1.pending, c, m.totalTicks);
      DueFireInListOrder(m1, c - 1, script);
      FiringsMoveUp(m.pending[..c], m.totalTicks);
      Regrouped(m.fired, Firings(m.pending[..c], m.totalTicks)[0], Firings(m1.pending[..c - 1], m.totalTicks),
                FireAll(m1, script).fired);
    }
  }

  lemma StillDue(s: seq<Entry<Pending>>, r: seq<Entry<Pending>>, c: nat, now: int)
    requires 0 < c <= |s| && c - 1 <= |r| && r[..c - 1] == s[..c][1..] && forall i :: 0 <= i < c ==> s[i].key <= now
    ensures forall i :: 0 <= i < c - 1 ==> r[i].key <= now
  {
    forall i | 0 <= i < c - 1
      ensures r[i].key <= now
    {
      assert r[i] == r[..c - 1][i] == s[i + 1];
    }
  }

  lemma {:induction false} FireAllExtends(m: Machine, script: Script)
    requires Lawful(script)
    ensures m.fired <= FireAll(m, script).fired
    decreases Due(m.pending, m.totalTicks)
  {
    var (m1, again) := CheckIfDue(m, false, script);
    if again {
      FiringUsesUpDue(m, script);
      var e := m.pending[0];
      ScheduleAllIsLater(m.(pending := m.pending[1..], fired := m.fired + [Fired(e.item, e.key, m.totalTicks)]),
                         script(|m.fired|).wishes);
      FireAllExtends(m1, script);
    }
  }

  // ---------------------------------------------------------------- ties

  /** What fired next after `before` calls, for as many entries as s has. */
  ghost predicate FiresNext(r: Machine, before: nat, s: seq<Entry<Pending>>) {
    && before + |s| <= |r.fired|
    && forall i, j :: 0 <= i < |s| && j == before + i ==> r.fired[j].what == s[i].item
  }

  lemma PrefixFires(r: Machine, m: Machine, s: seq<Entry<Pending>>, now: int)
    requires m.fired + Firings(s, now) <= r.fired
    ensures FiresNext(r, |m.fired|, s)
  {
    var line := m.fired + Firings(s, now);
    assert forall j :: 0 <= j < |line| ==> r.fired[j] == line[j];
  }

  /** Interrupts due together, and due at the (n+1)-th tick, fire together at that tick, in the order they
      were scheduled in but rotated n times. */
  lemma TiesFireRotated(m: Machine, n: nat, script: Script)
    requires Sorted(m.pending) && m.pending != [] && Lawful(script) && m.status != IdleMode
    requires m.totalTicks + Elapsed(m, n) < m.pending[0].key <= m.totalTicks + Elapsed(m, n + 1)
    ensures FiresNext(Ticks(m, n + 1, script), |m.fired|, Rotated(m.pending[..TieCount(m.pending)], n))
  {
    WaitingRotates(m, n, script);
    RotatedTies(m.pending, n);
    var t, w := TieCount(m.pending), Ticks(m, n, script);
    TiesFirst(w.pending);
    DueFireInListOrder(Ticked(w), t, script);
    PrefixFires(OneTick(w, script), m, w.pending[..t], Ticked(w).totalTicks);
  }

  lemma FullTurns<T>(s: seq<T>, n: nat)
    requires s != [] && forall i, j :: 0 <= i < j < |s| ==> s[i] != s[j]
    ensures Rotated(s, n) == s <==> n % |s| == 0
  {
    RotatedAt(s, n, 0);
    if n % |s| == 0 {
      forall i | 0 <= i < |s|
        ensures Rotated(s, n)[i] == s[i]
      {
        RotatedAt(s, n, i);
        WholeTurns(i, n, |s|);
      }
    }
  }

  lemma WholeTurns(i: nat, n: nat, t: nat)
    requires i < t && n % t == 0
    ensures (i + n) % t == i
  {
    var q := n / t;
    assert n == q * t;
    Remainder(q, t, i);
  }

  lemma SameItems(s: seq<Entry<Pending>>, r: seq<Entry<Pending>>, key: int)
    requires |s| == |r| && (forall i :: 0 <= i < |s| ==> s[i].key == key && r[i].key == key)
    ensures s == r <==> forall i :: 0 <= i < |s| ==> s[i].item == r[i].item
  {
    if forall i :: 0 <= i < |s| ==> s[i].item == r[i].item {
      assert forall i :: 0 <= i < |s| ==> s[i] == r[i];
    }
  }

  lemma FiresOneOrder(r: Machine, before: nat, s: seq<Entry<Pending>>, u: seq<Entry<Pending>>, key: int)
    requires FiresNext(r, before, u) && |s| == |u| && forall i :: 0 <= i < |s| ==> s[i].key == key && u[i].key == key
    ensures FiresNext(r, before, s) <==> s == u
  {
    if FiresNext(r, before, s) {
      forall i | 0 <= i < |s|
        ensures s[i].item == u[i].item
      {
        assert r.fired[before + i].what == s[i].item;
      }
      SameItems(s, u, key);
    }
  }

  /** So interrupts that are due together, no two of them alike, fire in the order they were scheduled in
      exactly when the number of ticks waited for them is a multiple of their number. */
  lemma InOrderExactlyOnFullTurns(m: Machine, n: nat, script: Script)
    requires Sorted(m.pending) && m.pending != [] && Lawful(script) && m.status != IdleMode
    requires m.totalTicks + Elapsed(m, n) < m.pending[0].key <= m.totalTicks + Elapsed(m, n + 1)
    requires forall i, j :: 0 <= i < j < TieCount(m.pending) ==> m.pending[i].item != m.pending[j].item
    ensures var t := TieCount(m.pending);
            t > 0 && (FiresNext(Ticks(m, n + 1, script), |m.fired|, m.pending[..t]) <==> n % t == 0)
  {
    TiesFireRotated(m, n, script);
    TiesFirst(m.pending);
    var t := TieCount(m.pending);
    var ties := m.pending[..t];
    FullTurns(ties, n);
    forall i | 0 <= i < t
      ensures Rotated(ties, n)[i].key == m.pending[0].key
    {
      RotatedAt(ties, n, i);
    }
    FiresOneOrder(Ticks(m, n + 1, script), |m.fired|, ties, Rotated(ties, n), m.pending[0].key);
  }

  /** Two interrupts scheduled for the same time fire in the other order after one tick in between. */
  lemma TwoSwap(a: Pending, b: Pending, script: Script)
    requires a != b && Lawful(script)
    ensures var m := Machine([Entry(a, 2), Entry(b, 2)], IntOn, false, false, UserMode, 0, 0, 0, 0, []);
            Inv(m) && FiresNext(Ticks(m, 2, script), 0, [Entry(b, 2), Entry(a, 2)])
  {
    var m := Machine([Entry(a, 2), Entry(b, 2)], IntOn, false, false, UserMode, 0, 0, 0, 0, []);
    TiesFireRotated(m, 1, script);
    TiesFirst(m.pending);
    assert m.pending[..2] == m.pending;
    assert Rotated(m.pending, 1) == RotatedOnce(m.pending);
    assert Rotated(m.pending, 1) == [Entry(b, 2), Entry(a, 2)];
  }
}

/** Runs of loads and stores of all sizes (translate.cc) against one flat store of bytes. */
module FlatMemory {
  import opened Options
  import opened Words
  import opened Memory

  datatype Request = Reading(va: int, size: int) | Writing(va: int, size: int, value: int)

  datatype Answer = Refused(exc: Exception) | Got(value: int)

  predicate RequestOk(a: Request) { a.size in {1, 2, 4} }

  datatype Paged = Paged(mem: seq<Byte>, table: Table)

  function Perform(s: Paged, a: Request): (r: (Paged, Answer))
    requires |s.mem| == MEMORY_SIZE && RequestOk(a)
    ensures |r.0.mem| == MEMORY_SIZE
  {
    match a
    case Reading(va, size) =>
      (match ReadMem(s.mem, s.table, va, size)
       case LoadFault(e) => (s, Refused(e))
       case Loaded(v, t) => (Paged(s.mem, t), Got(v)))
    case Writing(va, size, value) =>
      (match WriteMem(s.mem, s.table, va, size, value)
       case StoreFault(e) => (s, Refused(e))
       case Stored(m, t) => (Paged(m, t), Got(0)))
  }

  /** The bytes that f knows. */
  ghost function Known(f: nat -> Option<Byte>): imap<nat, Byte> {
    imap a: nat | f(a).Some? :: f(a).value
  }

  /** The virtual bytes that are mapped. */
  ghost function Virtual(s: Paged): imap<nat, Byte>
    requires |s.mem| == MEMORY_SIZE
  {
    Known(a => ByteAt(s.mem, s.table, a))
  }

  /** The same access on one store of bytes; the table says only which accesses are refused. */
  ghost function PerformFlat(m: imap<nat, Byte>, t: Table, a: Request): (imap<nat, Byte>, Answer)
    requires RequestOk(a)
  {
    var u := Unsigned(a.va);
    match Translate(t, a.va, a.size, a.Writing?)
    case Fault(e) => (m, Refused(e))
    case Address(_, _) =>
      match a
      case Reading(_, size) => (m, Got(LoadValue(Picked(m, u, size))))
      case Writing(_, size, value) => (Replaced(m, u, Bytes(value, size)), Got(0))
  }

  ghost function Picked(m: imap<nat, Byte>, u: nat, n: nat): (b: seq<Byte>)
    ensures |b| == n && forall i :: 0 <= i < n && u + i in m ==> b[i] == m[u + i]
  {
    seq(n, i requires 0 <= i < n => if u + i in m then m[u + i] else 0)
  }

  ghost function Replaced(m: imap<nat, Byte>, u: nat, b: seq<Byte>): imap<nat, Byte> {
    imap a: nat | a in m || u <= a < u + |b| :: if u <= a < u + |b| then b[a - u] else m[a]
  }

  /** Tables that translate alike but for the use and dirty bits. */
  ghost predicate SameRights(t: Table, r: Table) {
    && (forall va, size, writing :: Translate(t, va, size, writing).Fault? ==>
          Translate(r, va, size, writing) == Translate(t, va, size, writing))
    && (forall va, size, writing :: Translate(t, va, size, writing).Address? ==> Translate(r, va, size, writing).Address?)
  }

  lemma BitsKeepRights(t: Table, va: int, size: int, writing: bool)
    requires Translate(t, va, size, writing).Address?
    ensures SameRights(t, Translate(t, va, size, writing).table)
    ensures Injective(t) ==> Injective(Translate(t, va, size, writing).table)
  {
    var r := Translate(t, va, size, writing).table;
    forall vb, n, again
      ensures Translate(t, vb, n, again).Fault? ==> Translate(r, vb, n, again) == Translate(t, vb, n, again)
      ensures Translate(t, vb, n, again).Address? ==> Translate(r, vb, n, again).Address?
    {
      TranslateAgain(t, va, size, writing, vb, n, again);
    }
    forall p: nat, q: nat
      ensures Frame(r, p) == Frame(t, p) && Frame(r, q) == Frame(t, q)
    {
      TranslateKeepsFrames(t, va, size, writing, p);
      TranslateKeepsFrames(t, va, size, writing, q);
    }
  }

  lemma RightsChain(t: Table, r: Table, u: Table)
    requires SameRights(t, r) && SameRights(r, u)
    ensures SameRights(t, u)
  {
    forall va, size, writing
      ensures Translate(t, va, size, writing).Fault? ==> Translate(u, va, size, writing) == Translate(t, va, size, writing)
      ensures Translate(t, va, size, writing).Address? ==> Translate(u, va, size, writing).Address?
    {
      assert Translate(t, va, size, writing).Fault? || Translate(t, va, size, writing).Address?;
    }
  }

  lemma PickedAt(f: nat -> Option<Byte>, u: nat, n: nat, i: nat)
    requires i < n && f(u + i).Some?
    ensures f(u + i) == Some(Picked(Known(f), u, n)[i])
  {
  }

  lemma KnownSame(f: nat -> Option<Byte>, g: nat -> Option<Byte>)
    requires forall a: nat :: f(a) == g(a)
    ensures Known(f) == Known(g)
  {
  }

  lemma ReadKeepsVirtual(s: Paged, va: int, size: int)
    requires |s.mem| == MEMORY_SIZE && size in {1, 2, 4} && ReadMem(s.mem, s.table, va, size).Loaded?
    ensures Virtual(Paged(s.mem, ReadMem(s.mem, s.table, va, size).table)) == Virtual(s)
  {
    var t := ReadMem(s.mem, s.table, va, size).table;
    forall a: nat
      ensures ByteAt(s.mem, t, a) == ByteAt(s.mem, s.table, a)
    {
      TranslateKeepsFrames(s.table, va, size, false, a / PAGE_SIZE);
    }
    KnownSame(a => ByteAt(s.mem, t, a), a => ByteAt(s.mem, s.table, a));
  }

  lemma ReadIsPicked(s: Paged, va: int, size: int)
    requires |s.mem| == MEMORY_SIZE && size in {1, 2, 4} && ReadMem(s.mem, s.table, va, size).Loaded?
    ensures ReadMem(s.mem, s.table, va, size).value == LoadValue(Picked(Virtual(s), Unsigned(va), size))
  {
    var b := Picked(Virtual(s), Unsigned(va), size);
    forall i | 0 <= i < size
      ensures ByteAt(s.mem, s.table, Unsigned(va) + i) == Some(b[i])
    {
      ReadIsFlat(s.mem, s.table, va, size, i);
      PickedAt(a => ByteAt(s.mem, s.table, a), Unsigned(va), size, i);
    }
    ReadMemValue(s.mem, s.table, va, size, b);
  }

  lemma WriteIsReplaced(s: Paged, va: int, size: int, value: int)
    requires |s.mem| == MEMORY_SIZE && size in {1, 2, 4} && Injective(s.table)
    requires WriteMem(s.mem, s.table, va, size, value).Stored?
    ensures var r := WriteMem(s.mem, s.table, va, size, value);
            Virtual(Paged(r.mem, r.table)) == Replaced(Virtual(s), Unsigned(va), Bytes(value, size))
  {
    var r := WriteMem(s.mem, s.table, va, size, value);
    var u, b := Unsigned(va), Bytes(value, size);
    forall a: nat
      ensures ByteAt(r.mem, r.table, a) == if u <= a < u + size then Some(b[a - u]) else ByteAt(s.mem, s.table, a)
    {
      WriteIsFlat(s.mem, s.table, va, size, value, a);
    }
    KnownReplaced(a => ByteAt(s.mem, s.table, a), a => ByteAt(r.mem, r.table, a), u, b);
  }

  lemma KnownReplaced(f: nat -> Option<Byte>, g: nat -> Option<Byte>, u: nat, b: seq<Byte>)
    requires forall a: nat :: g(a) == if u <= a < u + |b| then Some(b[a - u]) else f(a)
    ensures Known(g) == Replaced(Known(f), u, b)
  {
  }

  /** One access does to mapped memory what it does to the flat store. */
  lemma PerformIsFlat(s: Paged, t: Table, a: Request)
    requires |s.mem| == MEMORY_SIZE && RequestOk(a) && Injective(s.table) && SameRights(t, s.table)
    ensures var r := Perform(s, a);
            && (Virtual(r.0), r.1) == PerformFlat(Virtual(s), t, a)
            && Injective(r.0.table) && SameRights(t, r.0.table)
  {
    var r := Perform(s, a);
    var tr := Translate(s.table, a.va, a.size, a.Writing?);
    assert Translate(t, a.va, a.size, a.Writing?).Fault? <==> tr.Fault?;
    if tr.Address? {
      BitsKeepRights(s.table, a.va, a.size, a.Writing?);
      RightsChain(t, s.table, tr.table);
      match a
      case Reading(va, size) =>
        ReadIsPicked(s, va, size);
        ReadKeepsVirtual(s, va, size);
      case Writing(va, size, value) => WriteIsReplaced(s, va, size, value);
    }
  }

  function PerformAll(s: Paged, reqs: seq<Request>): (r: (Paged, seq<Answer>))
    requires |s.mem| == MEMORY_SIZE && forall i :: 0 <= i < |reqs| ==> RequestOk(reqs[i])
    ensures |r.0.mem| == MEMORY_SIZE
    decreases |reqs|
  {
    if reqs == [] then (s, [])
    else
      var (s1, x) := Perform(s, reqs[0]);
      var (s2, rest) := PerformAll(s1, reqs[1..]);
      (s2, [x] + rest)
  }

  ghost function PerformAllFlat(m: imap<nat, Byte>, t: Table, reqs: seq<Request>): (imap<nat, Byte>, seq<Answer>)
    requires forall i :: 0 <= i < |reqs| ==> RequestOk(reqs[i])
    decreases |reqs|
  {
    if reqs == [] then (m, [])
    else
      var (m1, x) := PerformFlat(m, t, reqs[0]);
      var (m2, rest) := PerformAllFlat(m1, t, reqs[1..]);
      (m2, [x] + rest)
  }

  /** Every run of loads and stores of all sizes, at any addresses, returns what one flat little-endian
      store of bytes would return, and leaves that store's bytes; refusals depend on the table at the start. */
  lemma {:induction false} RunsAreFlat(s: Paged, t: Table, reqs: seq<Request>)
    requires |s.mem| == MEMORY_SIZE && Injective(s.table) && SameRights(t, s.table)
    requires forall i :: 0 <= i < |reqs| ==> RequestOk(reqs[i])
    ensures var r := PerformAll(s, reqs);
            (Virtual(r.0), r.1) == PerformAllFlat(Virtual(s), t, reqs) && Injective(r.0.table)
    decreases |reqs|
  {
    if reqs != [] {
      PerformIsFlat(s, t, reqs[0]);
      RunsAreFlat(Perform(s, reqs[0]).0, t, reqs[1..]);
    }
  }
}

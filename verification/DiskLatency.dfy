/** The disk's seek, rotation and track-buffer arithmetic (disk.cc). */
module DiskLatency {
  const ROTATION_TIME := 500
  const SEEK_TIME := 500
  const SECTORS_PER_TRACK := 32
  const NUM_SECTORS := 1024

  /** The head: the sector last asked for, and when the track buffer started to fill. */
  datatype Head = Head(lastSector: nat, bufferInit: nat)

  function Track(sector: nat): nat { sector / SECTORS_PER_TRACK }

  function Abs(x: int): nat { if x < 0 then -x else x }

  function Seek(h: Head, newSector: nat): nat { Abs(Track(newSector) - Track(h.lastSector)) * SEEK_TIME }

  /** Until the next sector boundary after the seek. */
  function Rotation(h: Head, now: nat, newSector: nat): (r: nat)
    ensures r < ROTATION_TIME
  {
    var over := (now + Seek(h, newSector)) % ROTATION_TIME;
    if over > 0 then ROTATION_TIME - over else 0
  }

  function TimeAfter(h: Head, now: nat, newSector: nat): nat {
    now + Seek(h, newSector) + Rotation(h, now, newSector)
  }

  function ModuloDiff(to: nat, from: nat): (d: nat)
    ensures d < SECTORS_PER_TRACK && (from + d) % SECTORS_PER_TRACK == to % SECTORS_PER_TRACK
  {
    (to % SECTORS_PER_TRACK - from % SECTORS_PER_TRACK + SECTORS_PER_TRACK) % SECTORS_PER_TRACK
  }

  /** C's division, which truncates toward zero. */
  function Quotient(a: int, b: int): int
    requires b > 0
  {
    if a < 0 then -((-a) / b) else a / b
  }

  predicate BufferHit(h: Head, now: nat, newSector: nat, writing: bool) {
    && !writing && Seek(h, newSector) == 0
    && Quotient(TimeAfter(h, now, newSector) - h.bufferInit, ROTATION_TIME)
       > ModuloDiff(newSector, h.bufferInit / ROTATION_TIME)
  }

  /** When a transfer that has to wait for the disk begins. */
  function Start(h: Head, now: nat, newSector: nat): nat {
    var after := TimeAfter(h, now, newSector);
    after + ModuloDiff(newSector, after / ROTATION_TIME) * ROTATION_TIME
  }

  function Latency(h: Head, now: nat, newSector: nat, writing: bool): int {
    if BufferHit(h, now, newSector, writing) then ROTATION_TIME
    else
      var after := TimeAfter(h, now, newSector);
      var rotation := Rotation(h, now, newSector) + ModuloDiff(newSector, after / ROTATION_TIME) * ROTATION_TIME;
      Seek(h, newSector) + rotation + ROTATION_TIME
  }

  function UpdateLast(h: Head, now: nat, newSector: nat): Head {
    Head(newSector, if Seek(h, newSector) != 0 then TimeAfter(h, now, newSector) else h.bufferInit)
  }

  // ---------------------------------------------------------------- mechanical latency

  /** The sector boundary at time t brings sector s of its track under the head: 32 sectors go by in turn, each
      for 500 ticks. */
  predicate Under(t: nat, s: nat) { t % 500 == 0 && t / 500 % 32 == s % 32 }

  /** Schedule's assertion fromNow > 0 holds for every request, and the buffer serves one in 500 ticks. */
  lemma LatencyIsPositive(h: Head, now: nat, newSector: nat, writing: bool)
    ensures Latency(h, now, newSector, writing) >= 500
    ensures BufferHit(h, now, newSector, writing) ==> Latency(h, now, newSector, writing) == 500
  {
  }

  // ---------------------------------------------------------------- seeking

  predicate OnTrack(sector: nat, t: nat) { 32 * t <= sector < 32 * t + 32 }

  /** Both sectors are in the same block of 32. */
  ghost predicate SameTrack(a: nat, b: nat) { exists t: nat :: OnTrack(a, t) && OnTrack(b, t) }

  lemma SameTrackIs(a: nat, b: nat)
    ensures SameTrack(a, b) <==> Track(a) == Track(b)
  {
    assert OnTrack(a, Track(a)) && OnTrack(b, Track(b));
  }

  /** How long a seek takes, from any sector to any other: nothing on the same track, 500 ticks from a track to
      the next, as long one way as the other, and as long as the two parts of the way when it passes over a
      track in between. */
  lemma SeekIsDistance(a: nat, b: nat, c: nat, i: nat, j: nat, k: nat)
    ensures Seek(Head(a, i), b) == 0 <==> SameTrack(a, b)
    ensures SameTrack(a + 32, b) ==> Seek(Head(a, i), b) == 500
    ensures Seek(Head(a, i), b) == Seek(Head(b, j), a)
    ensures a <= c <= b ==> Seek(Head(a, i), b) == Seek(Head(a, j), c) + Seek(Head(c, k), b)
  {
    SameTrackIs(a, b);
    SameTrackIs(a + 32, b);
    assert Track(a + 32) == Track(a) + 1;
    if a <= c <= b {
      TracksInOrder(a, c);
      TracksInOrder(c, b);
      TracksInOrder(a, b);
    }
  }

  lemma TracksInOrder(a: nat, b: nat)
    requires a <= b
    ensures Track(a) <= Track(b)
  {
  }

  /** After a request the head is over the track of the sector asked for: the next request on that track does
      not seek, and the buffer goes on filling exactly when this one did not seek either. */
  lemma HeadFollowsRequests(h: Head, now: nat, sector: nat, next: nat)
    ensures var r := UpdateLast(h, now, sector);
            && (Seek(r, next) == 0 <==> SameTrack(sector, next))
            && (SameTrack(h.lastSector, sector) ==> r.bufferInit == h.bufferInit)
            && (!SameTrack(h.lastSector, sector) ==>
                  now + Seek(h, sector) <= r.bufferInit < now + Seek(h, sector) + 500 && r.bufferInit % 500 == 0)
  {
    SeekIsDistance(sector, next, sector, UpdateLast(h, now, sector).bufferInit, 0, 0);
    SeekIsDistance(h.lastSector, sector, sector, h.bufferInit, 0, 0);
    RoundsUp(now + Seek(h, sector), TimeAfter(h, now, sector));
  }

  /** Only a read on the track the head is over can be served from the buffer. */
  lemma OnlyReadsHit(h: Head, now: nat, sector: nat, writing: bool)
    requires BufferHit(h, now, sector, writing)
    ensures !writing && SameTrack(h.lastSector, sector)
  {
    SeekIsDistance(h.lastSector, sector, sector, h.bufferInit, 0, 0);
  }

  // ---------------------------------------------------------------- waiting for the sector

  /** Without the buffer the transfer takes exactly the sector's slot: it begins at the first moment after
      the seek at which the target sector reaches the head, and the request completes one slot later. */
  lemma TransferStartsUnderTheHead(h: Head, now: nat, newSector: nat, writing: bool)
    requires !BufferHit(h, now, newSector, writing)
    ensures now + Latency(h, now, newSector, writing) == Start(h, now, newSector) + 500
    ensures now + Seek(h, newSector) <= Start(h, now, newSector)
    ensures Under(Start(h, now, newSector), newSector)
    ensures forall t: nat :: now + Seek(h, newSector) <= t < Start(h, now, newSector) ==> !Under(t, newSector)
  {
    var ready := now + Seek(h, newSector);
    var after := TimeAfter(h, now, newSector);
    RoundsUp(ready, after);
    var d := ModuloDiff(newSector, after / ROTATION_TIME);
    Slots(after, d);
    forall t: nat | ready <= t < Start(h, now, newSector)
      ensures !Under(t, newSector)
    {
      NotYet(after, newSector, t);
    }
  }

  /** after is the first boundary not before ready. */
  lemma RoundsUp(ready: nat, after: nat)
    requires after == ready + if ready % ROTATION_TIME > 0 then ROTATION_TIME - ready % ROTATION_TIME else 0
    ensures after % ROTATION_TIME == 0 && ready <= after < ready + ROTATION_TIME
  {
  }

  lemma Slots(after: nat, d: nat)
    requires after % ROTATION_TIME == 0
    ensures (after + d * ROTATION_TIME) % ROTATION_TIME == 0
    ensures (after + d * ROTATION_TIME) / ROTATION_TIME == after / ROTATION_TIME + d
  {
  }

  /** Between after and the start no boundary brings the target under the head; before after there is none. */
  lemma NotYet(after: nat, s: nat, t: nat)
    requires after % ROTATION_TIME == 0
    requires after - ROTATION_TIME < t < after + ModuloDiff(s, after / ROTATION_TIME) * ROTATION_TIME
    ensures !Under(t, s)
  {
    if t % ROTATION_TIME == 0 {
      var a, k := after / ROTATION_TIME, t / ROTATION_TIME;
      var d := ModuloDiff(s, a);
      assert a <= k < a + d;
      OnlyOnePerTurn(a, k - a, d);
    }
  }

  lemma OnlyOnePerTurn(a: nat, e: nat, d: nat)
    requires e < d < SECTORS_PER_TRACK
    ensures (a + e) % SECTORS_PER_TRACK != (a + d) % SECTORS_PER_TRACK
  {
  }

  // ---------------------------------------------------------------- the track buffer

  /** The disk over a run of requests: the head, when it reached its track, and when the last request is done. */
  datatype Disk = Disk(head: Head, arrived: nat, free: nat)

  datatype Request = Request(now: nat, sector: nat, writing: bool)

  function Step(d: Disk, r: Request): Disk {
    var seek := Seek(d.head, r.sector);
    Disk(UpdateLast(d.head, r.now, r.sector),
         if seek != 0 then r.now + seek else d.arrived,
         r.now + Latency(d.head, r.now, r.sector, r.writing))
  }

  /** The buffer starts to fill at the first sector boundary after the head reached the track, and that is
      over before the next request. */
  predicate DiskOk(d: Disk) {
    && d.head.bufferInit % ROTATION_TIME == 0
    && d.arrived <= d.head.bufferInit < d.arrived + ROTATION_TIME
    && d.head.bufferInit <= d.free
  }

  /** One request at a time: each comes after the one before it is done. */
  predicate InTurn(d: Disk, requests: seq<Request>)
    decreases |requests|
  {
    requests == [] || (requests[0].now >= d.free && InTurn(Step(d, requests[0]), requests[1..]))
  }

  function After(d: Disk, requests: seq<Request>): Disk
    decreases |requests|
  {
    if requests == [] then d else After(Step(d, requests[0]), requests[1..])
  }

  lemma StepKeeps(d: Disk, r: Request)
    requires DiskOk(d) && r.now >= d.free
    ensures DiskOk(Step(d, r))
  {
    RoundsUp(r.now + Seek(d.head, r.sector), TimeAfter(d.head, r.now, r.sector));
  }

  lemma {:induction false} EveryRunKeepsBufferOnBoundary(d: Disk, requests: seq<Request>)
    requires DiskOk(d) && InTurn(d, requests)
    ensures DiskOk(After(d, requests))
    decreases |requests|
  {
    if requests != [] {
      StepKeeps(d, requests[0]);
      EveryRunKeepsBufferOnBoundary(Step(d, requests[0]), requests[1..]);
    }
  }

  /** The whole slot of sector s went by under the head between from and by. */
  ghost predicate SlotPassed(from: nat, until: nat, s: nat) {
    exists b: nat :: Under(b, s) && from <= b && b + ROTATION_TIME <= until
  }

  /** The end of the sector slot the time lies in. */
  function Boundary(now: nat): nat {
    now + if now % ROTATION_TIME > 0 then ROTATION_TIME - now % ROTATION_TIME else 0
  }

  /** When the target first comes round after the buffer started to fill. */
  function FirstPass(h: Head, s: nat): nat {
    h.bufferInit + ModuloDiff(s, h.bufferInit / ROTATION_TIME) * ROTATION_TIME
  }

  lemma FirstPassIsFirst(d: Disk, s: nat, b: nat)
    requires DiskOk(d) && Under(b, s) && d.arrived <= b
    ensures FirstPass(d.head, s) <= b
  {
    if b < FirstPass(d.head, s) {
      NotYet(d.head.bufferInit, s, b);
    }
  }

  lemma FirstPassIsUnder(d: Disk, s: nat)
    requires DiskOk(d)
    ensures Under(FirstPass(d.head, s), s) && d.arrived <= FirstPass(d.head, s)
  {
    Slots(d.head.bufferInit, ModuloDiff(s, d.head.bufferInit / ROTATION_TIME));
  }

  lemma PassedExactlyWhen(d: Disk, until: nat, s: nat)
    requires DiskOk(d)
    ensures SlotPassed(d.arrived, until, s) <==> FirstPass(d.head, s) + ROTATION_TIME <= until
  {
    FirstPassIsUnder(d, s);
    if SlotPassed(d.arrived, until, s) {
      var b: nat :| Under(b, s) && d.arrived <= b && b + ROTATION_TIME <= until;
      FirstPassIsFirst(d, s, b);
    }
  }

  /** A read on the current track is served from the buffer exactly when the target's whole slot has passed
      since the head reached the track, as of the end of the slot the request falls in. */
  lemma HitExactlyWhen(d: Disk, r: Request)
    requires DiskOk(d) && r.now >= d.free && !r.writing && Seek(d.head, r.sector) == 0
    ensures BufferHit(d.head, r.now, r.sector, false) <==> SlotPassed(d.arrived, Boundary(r.now), r.sector)
  {
    PassedExactlyWhen(d, Boundary(r.now), r.sector);
    RoundsUp(r.now, Boundary(r.now));
    assert TimeAfter(d.head, r.now, r.sector) == Boundary(r.now);
  }

  /** As of the request itself that can be too early: exactly when the request falls inside the target's
      first pass. */
  lemma HitIsEarlyExactlyWhen(d: Disk, r: Request)
    requires DiskOk(d) && r.now >= d.free && BufferHit(d.head, r.now, r.sector, r.writing)
    ensures !SlotPassed(d.arrived, r.now, r.sector)
            <==> FirstPass(d.head, r.sector) < r.now < FirstPass(d.head, r.sector) + ROTATION_TIME
  {
    HitExactlyWhen(d, r);
    PassedExactlyWhen(d, r.now, r.sector);
    PassedExactlyWhen(d, Boundary(r.now), r.sector);
    RoundsUp(r.now, Boundary(r.now));
    FirstPassIsUnder(d, r.sector);
  }

  /** Such a request exists: a read of sector 0 one tick after the disk starts. */
  lemma EarlyHitExists()
    ensures var d, r := Disk(Head(0, 0), 0, 0), Request(1, 0, false);
            DiskOk(d) && BufferHit(d.head, r.now, r.sector, r.writing) && !SlotPassed(d.arrived, r.now, r.sector)
  {
    var d, r := Disk(Head(0, 0), 0, 0), Request(1, 0, false);
    HitIsEarlyExactlyWhen(d, r);
  }

  /** Either way the data is there in time: when a request completes, the whole slot of its sector has
      passed under the head since the head reached the track. */
  lemma CompletesAfterThePass(d: Disk, r: Request)
    requires DiskOk(d) && r.now >= d.free
    ensures SlotPassed(Step(d, r).arrived, Step(d, r).free, r.sector)
  {
    if BufferHit(d.head, r.now, r.sector, r.writing) {
      HitExactlyWhen(d, r);
      RoundsUp(r.now, Boundary(r.now));
      var b: nat :| Under(b, r.sector) && d.arrived <= b && b + ROTATION_TIME <= Boundary(r.now);
      assert b + ROTATION_TIME <= Step(d, r).free;
    } else {
      TransferStartsUnderTheHead(d.head, r.now, r.sector, r.writing);
      assert Under(Start(d.head, r.now, r.sector), r.sector);
    }
  }

  /** The device's own fields. */
  class DiskDevice {
    var lastSector: nat
    var bufferInit: nat

    constructor ()
      ensures View() == Head(0, 0)
    {
      lastSector, bufferInit := 0, 0;
    }

    function View(): Head
      reads this
    {
      Head(lastSector, bufferInit)
    }

    /** The timing of ReadRequest and WriteRequest: the ticks until the interrupt, and the new head. */
    method RequestAt(totalTicks: nat, sectorNumber: nat, writing: bool) returns (ticks: int)
      requires sectorNumber < NUM_SECTORS
      modifies this
      ensures ticks == Latency(old(View()), totalTicks, sectorNumber, writing)
      ensures View() == UpdateLast(old(View()), totalTicks, sectorNumber)
    {
      ticks := ComputeLatency(totalTicks, sectorNumber, writing);
      var seek, rotate := TimeToSeek(totalTicks, sectorNumber);
      if seek != 0 {
        bufferInit := totalTicks + seek + rotate;
      }
      lastSector := sectorNumber;
    }

    method TimeToSeek(totalTicks: nat, newSector: nat) returns (seek: nat, rotation: nat)
      ensures seek == Seek(View(), newSector) && rotation == Rotation(View(), totalTicks, newSector)
    {
      var newTrack, oldTrack := newSector / SECTORS_PER_TRACK, lastSector / SECTORS_PER_TRACK;
      seek := Abs(newTrack - oldTrack) * SEEK_TIME;
      var over := (totalTicks + seek) % ROTATION_TIME;
      rotation := 0;
      if over > 0 {
        rotation := ROTATION_TIME - over;
      }
    }

    method ComputeLatency(totalTicks: nat, newSector: nat, writing: bool) returns (ticks: int)
      ensures ticks == Latency(View(), totalTicks, newSector, writing)
    {
      var seek, rotation := TimeToSeek(totalTicks, newSector);
      var timeAfter := totalTicks + seek + rotation;
      if !writing && seek == 0
         && Quotient(timeAfter - bufferInit, ROTATION_TIME) > ModuloDiff(newSector, bufferInit / ROTATION_TIME) {
        return ROTATION_TIME;
      }
      rotation := rotation + ModuloDiff(newSector, timeAfter / ROTATION_TIME) * ROTATION_TIME;
      ticks := seek + rotation + ROTATION_TIME;
    }
  }
}

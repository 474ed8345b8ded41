/** The synchronous disk (synchdisk.cc) over the raw disk (disk.cc): the gate protocol with a disk behind it. */
module SynchDisk {
  import opened Threads
  import opened Synch
  import G = Gate

  const NUM_SECTORS := 1024

  type Data = seq<nat>

  datatype Request = Read(sector: int) | Write(sector: int, data: Data)

  /** `buffers` holds what the disk has moved to or from each caller's buffer. */
  datatype Device = Device(gate: G.Gate<Request>, sectors: map<int, Data>, buffers: map<Tid, Data>)

  function Contents(d: Device, sector: int): Data {
    if sector in d.sectors then d.sectors[sector] else []
  }

  /** Disk::ReadRequest and Disk::WriteRequest: the transfer is done at once, its completion comes later. */
  function Transfer(d: Device, t: Tid, req: Request): Device {
    var r := d.(sectors := if req.Write? then d.sectors[req.sector := req.data] else d.sectors);
    r.(buffers := r.buffers[t := Contents(r, req.sector)])
  }

  predicate Can(d: Device, a: G.Action<Request>) {
    G.Can(d.gate, a) && (a.Start? ==> 0 <= a.req.sector < NUM_SECTORS)
  }

  ghost function Act(d: Device, a: G.Action<Request>): Device
    requires DeviceOk(d) && Can(d, a)
  {
    var me := d.gate.k.ts.current;
    (if a.Issue? then Transfer(d, me, d.gate.pc[me].req) else d).(gate := G.Act(d.gate, a))
  }

  // ---------------------------------------------------------------- the invariant

  /** What a request has transferred is what the sector still holds. */
  predicate BufferOk(d: Device, t: Tid)
    requires t in d.gate.pc
  {
    var pc := d.gate.pc[t];
    && 0 <= pc.req.sector < NUM_SECTORS
    && (pc.Waiting? || pc.Leaving? ==>
          && t in d.buffers && d.buffers[t] == Contents(d, pc.req.sector)
          && (pc.req.Write? ==> d.buffers[t] == pc.req.data))
  }

  ghost predicate DeviceOk(d: Device) {
    G.GateOk(d.gate) && forall t {:trigger BufferOk(d, t)} :: t in d.gate.pc ==> BufferOk(d, t)
  }

  /** The assertion of the raw disk holds: no request is active when the next one is made, and none of the
      callers whose transfer is done can see it. */
  lemma IssueKeeps(d: Device)
    requires DeviceOk(d) && Can(d, G.Issue)
    ensures !d.gate.active && DeviceOk(Act(d, G.Issue))
  {
    G.IssueKeeps(d.gate);
    G.InsideOk(d.gate);
    var r := Act(d, G.Issue);
    forall t | t in r.gate.pc
      ensures BufferOk(r, t)
    {
      assert BufferOk(d, t);
    }
  }

  lemma StepKeeps(d: Device, a: G.Action<Request>)
    requires DeviceOk(d) && Can(d, a)
    ensures DeviceOk(Act(d, a))
  {
    if a.Issue? {
      IssueKeeps(d);
    } else {
      G.StepKeeps(d.gate, a);
      var r := Act(d, a);
      forall t | t in r.gate.pc
        ensures BufferOk(r, t)
      {
        assert t in d.gate.pc ==> BufferOk(d, t);
      }
    }
  }

  // ---------------------------------------------------------------- whole runs

  ghost predicate Runs(d: Device, acts: seq<G.Action<Request>>)
    requires DeviceOk(d)
    decreases |acts|
  {
    acts == [] || (Can(d, acts[0]) && (StepKeeps(d, acts[0]); Runs(Act(d, acts[0]), acts[1..])))
  }

  /** The state a run ends in; every run keeps the invariant of the protocol. */
  ghost function After(d: Device, acts: seq<G.Action<Request>>): (r: Device)
    requires DeviceOk(d) && Runs(d, acts)
    ensures DeviceOk(r)
    decreases |acts|
  {
    if acts == [] then d
    else StepKeeps(d, acts[0]); After(Act(d, acts[0]), acts[1..])
  }

  lemma FreshIsOk(d: Device)
    requires G.Fresh(d.gate)
    ensures DeviceOk(d)
  {
    G.FreshIsOk(d.gate);
  }

  /** In every interleaving of callers and disk interrupts a raw request is made only when none is
      active, and at most one of an active request and a unit of the semaphore exists. */
  lemma OneRequestAtATime(d: Device, acts: seq<G.Action<Request>>)
    requires DeviceOk(d) && Runs(d, acts)
    ensures var r := After(d, acts).gate;
            && (G.Can(r, G.Issue) ==> !r.active && r.k.sems[r.sem] == 0)
            && 0 <= r.k.sems[r.sem] <= 1 && !(r.active && r.k.sems[r.sem] == 1)
  {
    G.OneAtATime(After(d, acts).gate);
  }

  /** A call that is about to return has had the completion interrupt of its own request, and its
      buffer holds what the sector holds at that moment: what a read returns is current and what a
      write wrote is there. */
  lemma ReturnsAfterOwnCompletion(d: Device, acts: seq<G.Action<Request>>, t: Tid)
    requires DeviceOk(d) && Runs(d, acts) && t in After(d, acts).gate.pc && After(d, acts).gate.pc[t].Leaving?
    ensures var r := After(d, acts); var pc := r.gate.pc[t];
            && pc.serial <= r.gate.completed && !r.gate.active
            && t in r.buffers && r.buffers[t] == Contents(r, pc.req.sector)
            && (pc.req.Write? ==> Contents(r, pc.req.sector) == pc.req.data)
  {
    assert G.RequestOk(After(d, acts).gate, t) && BufferOk(After(d, acts), t);
  }

  /** No completion is lost: a caller asleep on the semaphore still has its request active. */
  lemma SleeperIsPending(d: Device, acts: seq<G.Action<Request>>, t: Tid)
    requires DeviceOk(d) && Runs(d, acts) && t in Waiters(After(d, acts).gate.k.ts, SemQueue(After(d, acts).gate.sem))
    ensures var g := After(d, acts).gate; g.active && t in g.pc && g.pc[t].Waiting? && g.pc[t].serial == g.issued
  {
    G.SleeperIsPending(After(d, acts).gate, t);
  }

  // ---------------------------------------------------------------- what the disk holds

  /** The requests a run makes of the raw disk, in order. */
  ghost function Issued(d: Device, acts: seq<G.Action<Request>>): seq<Request>
    requires DeviceOk(d) && Runs(d, acts)
    decreases |acts|
  {
    if acts == [] then []
    else
      StepKeeps(d, acts[0]);
      (if acts[0].Issue? then [d.gate.pc[d.gate.k.ts.current].req] else []) + Issued(Act(d, acts[0]), acts[1..])
  }

  /** The data last written to the sector, or what it held before. */
  function LastWritten(before: Data, reqs: seq<Request>, sector: int): Data
    decreases |reqs|
  {
    if reqs == [] then before
    else
      var first := reqs[0];
      LastWritten(if first.Write? && first.sector == sector then first.data else before, reqs[1..], sector)
  }

  /** In every interleaving every sector holds the data of the last write to it, and reads change nothing. */
  lemma {:induction false} SectorHoldsLastWrite(d: Device, acts: seq<G.Action<Request>>, sector: int)
    requires DeviceOk(d) && Runs(d, acts)
    ensures Contents(After(d, acts), sector) == LastWritten(Contents(d, sector), Issued(d, acts), sector)
    decreases |acts|
  {
    if acts != [] {
      StepKeeps(d, acts[0]);
      var r := Act(d, acts[0]);
      SectorHoldsLastWrite(r, acts[1..], sector);
      IssuedFirst(d, acts, sector);
    }
  }

  lemma IssuedFirst(d: Device, acts: seq<G.Action<Request>>, sector: int)
    requires DeviceOk(d) && Runs(d, acts) && acts != [] && DeviceOk(Act(d, acts[0]))
    ensures var rest := Issued(Act(d, acts[0]), acts[1..]);
            LastWritten(Contents(d, sector), Issued(d, acts), sector)
            == LastWritten(Contents(Act(d, acts[0]), sector), rest, sector)
  {
    var rest := Issued(Act(d, acts[0]), acts[1..]);
    if acts[0].Issue? {
      var req := d.gate.pc[d.gate.k.ts.current].req;
      assert ([req] + rest)[1..] == rest;
    } else {
      assert [] + rest == rest;
    }
  }
}

/** One machine's post office (post.cc, network.cc) on its kernel: senders go through sendLock and
    messageSent, the postal worker waits on messageAvailable, and every mailbox is a synchronised list.
    All of them are threads of one kernel, among any others. */
module Office {
  import opened Options
  import opened Threads
  import opened Synch
  import opened Wire
  import G = Gate
  import L = SynchList
  import I = Inlet

  /** A mailbox: the synchronised list without the kernel it lives in. */
  datatype Box = Box(
    lock: Id, cond: Id, pc: map<Tid, L.Pc<Message>>,
    list: seq<Message>, appended: seq<Message>, removed: seq<Message>)

  /** The network's one-packet inbox. */
  datatype Slot = Empty | Full(h: Header, b: seq<Byte>)

  /** The postal worker: in P, past it, past Receive, in MailBox::Put before and after it has appended. */
  datatype Job = InP | PastP | Holding(h: Header, b: seq<Byte>) | Putting(box: nat, m: Message) | Returning(box: nat)

  /** `outstanding` says that the network owes a send interrupt; `sendBusy` is the network's own flag.
      `arrived` records what was put into the socket and `delivered` what was put into mailboxes. */
  datatype Machine = Machine(
    k: Kernel, sendLock: Id, messageSent: Id, messageAvailable: Id, worker: Tid,
    sendPc: map<Tid, G.Pc<Message>>, outstanding: bool, issued: nat, completed: nat, sendBusy: bool,
    socket: seq<seq<Byte>>, slot: Slot, job: Job, boxes: seq<Box>,
    arrived: seq<Message>, delivered: seq<Message>)

  // ---------------------------------------------------------------- the three users of the kernel

  function Sending(mc: Machine): G.Gate<Message> {
    G.Gate(mc.k, mc.sendLock, mc.messageSent, mc.sendPc, mc.outstanding, mc.issued, mc.completed)
  }

  function WithSending(mc: Machine, g: G.Gate<Message>): Machine {
    mc.(k := g.k, sendPc := g.pc, outstanding := g.active, issued := g.issued, completed := g.completed)
  }

  function PhaseOf(job: Job): I.Phase {
    match job
    case InP => I.InP
    case PastP => I.PastP
    case Holding(_, _) => I.AtCode
    case _ => I.Away
  }

  function Receiving(mc: Machine): I.Inlet {
    I.Inlet(mc.k, mc.messageAvailable, mc.worker, PhaseOf(mc.job), mc.slot.Full?)
  }

  function BoxOf(mc: Machine, x: nat): L.Monitor<Message>
    requires x < |mc.boxes|
  {
    var b := mc.boxes[x];
    L.Monitor(mc.k, b.lock, b.cond, b.pc, b.list, b.appended, b.removed)
  }

  function WithBox(mc: Machine, x: nat, m: L.Monitor<Message>): Machine
    requires x < |mc.boxes|
  {
    mc.(k := m.k, boxes := mc.boxes[x := Box(m.lock, m.cond, m.pc, m.list, m.appended, m.removed)])
  }

  // ---------------------------------------------------------------- messages on their way

  predicate WireReadable(b: seq<Byte>) { WireOk(b) && PacketOk(Packet(b)) }

  function Unwire(b: seq<Byte>): Message
    requires WireReadable(b)
  {
    Mail(ReadHeader(b), Packet(b))
  }

  predicate Readable(mc: Machine) {
    && (forall k :: 0 <= k < |mc.socket| ==> WireReadable(mc.socket[k]))
    && (mc.slot.Full? ==> PacketOk(mc.slot.b))
    && (mc.job.Holding? ==> PacketOk(mc.job.b))
  }

  function Hand(mc: Machine): seq<Message>
    requires Readable(mc)
  {
    match mc.job
    case Holding(h, b) => [Mail(h, b)]
    case Putting(_, m) => [m]
    case _ => []
  }

  function Inbox(mc: Machine): seq<Message>
    requires Readable(mc)
  {
    if mc.slot.Full? then [Mail(mc.slot.h, mc.slot.b)] else []
  }

  function Opened(socket: seq<seq<Byte>>): (r: seq<Message>)
    requires forall k :: 0 <= k < |socket| ==> WireReadable(socket[k])
    ensures |r| == |socket| && forall k :: 0 <= k < |socket| ==> r[k] == Unwire(socket[k])
  {
    seq(|socket|, k requires 0 <= k < |socket| => Unwire(socket[k]))
  }

  /** The messages for one box, in order. */
  function ForBox(s: seq<Message>, box: int): seq<Message> {
    if s == [] then []
    else ForBox(s[..|s| - 1], box) + if s[|s| - 1].boxTo == box then [s[|s| - 1]] else []
  }

  // ---------------------------------------------------------------- the invariant

  /** The objects belong to one user each. */
  ghost predicate IdsApart(mc: Machine) {
    && mc.messageSent != mc.messageAvailable
    && (forall x :: 0 <= x < |mc.boxes| ==> mc.boxes[x].lock != mc.sendLock)
    && (forall x, y :: 0 <= x < y < |mc.boxes| ==>
          mc.boxes[x].lock != mc.boxes[y].lock && mc.boxes[x].cond != mc.boxes[y].cond)
  }

  /** A thread is inside one piece of the post office at a time. */
  ghost predicate ThreadsApart(mc: Machine) {
    && mc.worker !in mc.sendPc
    && (forall x, t :: 0 <= x < |mc.boxes| && t in mc.boxes[x].pc ==> t !in mc.sendPc)
    && (forall x, y, t :: 0 <= x < |mc.boxes| && 0 <= y < |mc.boxes| && x != y && t in mc.boxes[x].pc ==> t !in mc.boxes[y].pc)
  }

  predicate Appends(pc: L.Pc<Message>) { pc.AppendEnter? || pc.AppendIn? }

  /** Only the worker puts mail into boxes, and where it is in a box is what its job says. */
  ghost predicate JobOk(mc: Machine) {
    && (forall x :: 0 <= x < |mc.boxes| ==>
          (mc.worker in mc.boxes[x].pc <==> (mc.job.Putting? || mc.job.Returning?) && mc.job.box == x))
    && (mc.job.Putting? ==>
          && mc.job.box < |mc.boxes| && mc.job.m.boxTo == mc.job.box
          && mc.boxes[mc.job.box].pc[mc.worker] in {L.AppendEnter(mc.job.m), L.AppendIn(mc.job.m)})
    && (mc.job.Returning? ==> mc.job.box < |mc.boxes| && mc.boxes[mc.job.box].pc[mc.worker] == L.Leaving)
    && (forall x, t :: 0 <= x < |mc.boxes| && t in mc.boxes[x].pc && Appends(mc.boxes[x].pc[t]) ==> t == mc.worker)
  }

  ghost predicate PartsOk(mc: Machine) {
    && G.GateOk(Sending(mc)) && I.InletOk(Receiving(mc))
    && forall x :: 0 <= x < |mc.boxes| ==> L.MonitorOk(BoxOf(mc, x))
  }

  /** Nothing that arrived is lost, duplicated, changed or overtaken. */
  ghost predicate LineOk(mc: Machine) {
    && Readable(mc)
    && mc.delivered + Hand(mc) + Inbox(mc) + Opened(mc.socket) == mc.arrived
    && (forall x :: 0 <= x < |mc.boxes| ==> mc.boxes[x].appended == ForBox(mc.delivered, x))
  }

  /** Everything that arrived was meant for this machine and one of its boxes. */
  predicate ArrivedOk(mc: Machine, i: nat) {
    forall k :: 0 <= k < |mc.arrived| ==>
      mc.arrived[k].to == i && 0 <= mc.arrived[k].boxTo < |mc.boxes| && MessageOk(mc.arrived[k])
  }

  ghost predicate MachineOk(mc: Machine) {
    IdsApart(mc) && ThreadsApart(mc) && JobOk(mc) && PartsOk(mc) && LineOk(mc) && !mc.sendBusy
  }

  // ---------------------------------------------------------------- steps

  datatype Step =
    | Foreign(op: Op)                        // any kernel operation outside the post office
    | Sender(a: G.Action<Message>)           // a step of PostOffice::Send, or the send interrupt
    | Poll                                   // CheckPktAvail with the handler it calls
    | WorkerP | WorkerReceive | WorkerPut    // a turn of P, Network::Receive, the start of MailBox::Put
    | InBox(x: nat, act: L.Action<Message>)  // a step of SynchList::Append or Remove in a mailbox

  /** The current thread is in no piece of the post office. */
  ghost predicate Idle(mc: Machine) {
    var me := mc.k.ts.current;
    me != mc.worker && me !in mc.sendPc && forall x :: 0 <= x < |mc.boxes| ==> me !in mc.boxes[x].pc
  }

  ghost predicate Can(mc: Machine, s: Step) {
    match s
    case Foreign(op) =>
      && Enabled(mc.k, op) && !G.Names(Sending(mc), op) && !I.Names(Receiving(mc), op)
      && (forall x :: 0 <= x < |mc.boxes| ==> !L.Names(BoxOf(mc, x), op))
      && (op == OpYield || op == OpDispatch || op.OpV? || Idle(mc))
    case Sender(a) => !a.Outside? && G.Can(Sending(mc), a) && (a.Start? ==> Idle(mc))
    case Poll => mc.socket != [] ==> WireOk(mc.socket[0])
    case WorkerP => IsRunning(mc.k.ts) && mc.k.ts.current == mc.worker && mc.job.InP?
    case WorkerReceive => IsRunning(mc.k.ts) && mc.k.ts.current == mc.worker && mc.job.PastP?
    case WorkerPut =>
      && IsRunning(mc.k.ts) && mc.k.ts.current == mc.worker && mc.job.Holding?
      && PacketOk(mc.job.b) && 0 <= Mail(mc.job.h, mc.job.b).boxTo < |mc.boxes|
    case InBox(x, a) =>
      x < |mc.boxes| && !a.Outside? && !a.StartAppend? && L.Can(BoxOf(mc, x), a) && (a.StartRemove? ==> Idle(mc))
  }

  ghost function Act(mc: Machine, s: Step): Machine
    requires MachineOk(mc) && Can(mc, s)
  {
    match s
    case Foreign(op) => mc.(k := Apply(mc.k, op))
    case Sender(a) => WithSending(mc, G.Act(Sending(mc), a)).(sendBusy := if a.Interrupt? then false else mc.sendBusy)
    case Poll =>
      if mc.slot.Full? || mc.socket == [] then mc
      else mc.(k := Apply(mc.k, OpV(mc.messageAvailable)), socket := mc.socket[1..],
               slot := Full(ReadHeader(mc.socket[0]), Packet(mc.socket[0])))
    case WorkerP =>
      var i := I.AfterP(Receiving(mc));
      mc.(k := i.k, job := if i.phase.PastP? then PastP else InP)
    case WorkerReceive =>
      mc.(slot := Empty, job := if mc.slot.Full? then Holding(mc.slot.h, mc.slot.b) else Holding(Header(0, 0, 0), []))
    case WorkerPut =>
      var m := Mail(mc.job.h, mc.job.b);
      WithBox(mc, m.boxTo, L.Act(BoxOf(mc, m.boxTo), L.StartAppend(m))).(job := Putting(m.boxTo, m))
    case InBox(x, a) => AfterBox(mc, x, a, L.Act(BoxOf(mc, x), a))
  }

  /** A step in mailbox x that leaves it as r; the worker's own steps there move its job on. */
  function AfterBox(mc: Machine, x: nat, a: L.Action<Message>, r: L.Monitor<Message>): Machine
    requires x < |mc.boxes|
  {
    var n := WithBox(mc, x, r);
    var mine := mc.k.ts.current == mc.worker;
    if a.DoAppend? && mine && mc.job.Putting? then n.(delivered := mc.delivered + [mc.job.m], job := Returning(x))
    else if a.Leave? && mine then n.(job := InP)
    else n
  }

  // ---------------------------------------------------------------- a kernel operation seen from elsewhere

  datatype Who = TheSenders | TheInlet | TheBox(x: nat) | Nobody

  /** The operation is an outside one for everybody but who. */
  ghost predicate ElsewhereOk(mc: Machine, op: Op, who: Who) {
    && Enabled(mc.k, op)
    && (who != TheSenders ==> G.Can(Sending(mc), G.Outside(op)))
    && (who != TheInlet ==> I.CanOutside(Receiving(mc), op))
    && (forall y :: 0 <= y < |mc.boxes| && who != TheBox(y) ==> L.Can(BoxOf(mc, y), L.Outside(op)))
  }

  /** Everybody but who is as sound after the operation as before. */
  ghost predicate OthersOk(r: Machine, who: Who) {
    && (who != TheSenders ==> G.GateOk(Sending(r)))
    && (who != TheInlet ==> I.InletOk(Receiving(r)))
    && (forall y :: 0 <= y < |r.boxes| && who != TheBox(y) ==> L.MonitorOk(BoxOf(r, y)))
  }

  lemma ElsewhereKeeps(mc: Machine, op: Op, who: Who)
    requires KernelOk(mc.k) && PartsOk(mc) && ElsewhereOk(mc, op, who)
    ensures OthersOk(mc.(k := Apply(mc.k, op)), who)
  {
    var r := mc.(k := Apply(mc.k, op));
    if who != TheSenders {
      G.OutsideKeeps(Sending(mc), op);
      assert Sending(r) == G.Act(Sending(mc), G.Outside(op));
    }
    if who != TheInlet {
      I.OutsideKeeps(Receiving(mc), op);
      assert Receiving(r) == Receiving(mc).(k := Apply(mc.k, op));
    }
    forall y | 0 <= y < |mc.boxes| && who != TheBox(y)
      ensures L.MonitorOk(BoxOf(r, y))
    {
      L.OutsideKeeps(BoxOf(mc, y), op);
      assert BoxOf(r, y) == L.Act(BoxOf(mc, y), L.Outside(op));
    }
  }

  lemma ForeignKeeps(mc: Machine, op: Op)
    requires MachineOk(mc) && Can(mc, Foreign(op))
    ensures MachineOk(Act(mc, Foreign(op)))
  {
    ForeignIsOutside(mc, op);
    ElsewhereKeeps(mc, op, Nobody);
    KernelRest(mc, Act(mc, Foreign(op)));
  }

  lemma ForeignIsOutside(mc: Machine, op: Op)
    requires MachineOk(mc) && Can(mc, Foreign(op))
    ensures KernelOk(mc.k) && ElsewhereOk(mc, op, Nobody)
  {
  }

  lemma KernelRest(mc: Machine, r: Machine)
    requires MachineOk(mc) && r == mc.(k := r.k) && OthersOk(r, Nobody)
    ensures MachineOk(r)
  {
    assert Hand(r) == Hand(mc) && Inbox(r) == Inbox(mc);
  }

  // ---------------------------------------------------------------- senders

  /** The kernel operation of a step of the senders, if it has one. */
  function SenderOp(mc: Machine, a: G.Action<Message>): Op {
    match a
    case Enter => OpAcquire(mc.sendLock)
    case AwaitDone => OpP(mc.messageSent)
    case Interrupt => OpV(mc.messageSent)
    case _ => OpRelease(mc.sendLock)
  }

  lemma SenderIsOutside(mc: Machine, a: G.Action<Message>)
    requires MachineOk(mc) && Can(mc, Sender(a)) && !a.Start? && !a.Issue?
    ensures KernelOk(mc.k) && ElsewhereOk(mc, SenderOp(mc, a), TheSenders)
    ensures G.Act(Sending(mc), a).k == Apply(mc.k, SenderOp(mc, a))
  {
    var me := mc.k.ts.current;
    if !a.Interrupt? {
      G.InsideOk(Sending(mc));
      assert forall y :: 0 <= y < |mc.boxes| ==> me !in mc.boxes[y].pc;
    }
  }

  lemma SenderKeeps(mc: Machine, a: G.Action<Message>)
    requires MachineOk(mc) && Can(mc, Sender(a))
    ensures MachineOk(Act(mc, Sender(a)))
  {
    var g := G.Act(Sending(mc), a);
    G.StepKeeps(Sending(mc), a);
    var r := Act(mc, Sender(a));
    if a.Start? || a.Issue? {
      assert g.k == mc.k;
      assert OthersOk(mc, TheSenders);
    } else {
      SenderIsOutside(mc, a);
      ElsewhereKeeps(mc, SenderOp(mc, a), TheSenders);
    }
    SenderRest(mc, r, g);
  }

  lemma SenderRest(mc: Machine, r: Machine, g: G.Gate<Message>)
    requires MachineOk(mc) && r == WithSending(mc, g) && G.GateOk(g) && g.lock == mc.sendLock && g.sem == mc.messageSent
    requires OthersOk(mc.(k := g.k), TheSenders)
    requires forall t :: t in g.pc && t !in mc.sendPc ==> t == mc.k.ts.current && Idle(mc)
    ensures MachineOk(r)
  {
    assert Sending(r) == g && Receiving(r) == Receiving(mc.(k := g.k));
    forall y | 0 <= y < |r.boxes|
      ensures L.MonitorOk(BoxOf(r, y))
    {
      assert BoxOf(r, y) == BoxOf(mc.(k := g.k), y);
    }
    assert Hand(r) == Hand(mc) && Inbox(r) == Inbox(mc);
  }

  // ---------------------------------------------------------------- the worker

  lemma OpenedTail(socket: seq<seq<Byte>>)
    requires socket != [] && forall k :: 0 <= k < |socket| ==> WireReadable(socket[k])
    ensures Opened(socket) == [Unwire(socket[0])] + Opened(socket[1..])
  {
  }

  /** Moving the first message of c into an empty place before it changes nothing in the line. */
  lemma NextInLine(front: seq<Message>, m: Message, c: seq<Message>)
    ensures front + [] + ([m] + c) == front + [m] + c && (front + [m] + c)[|front|] == m
  {
  }

  lemma MovesUp(d: seq<Message>, b: seq<Message>, o: seq<Message>)
    ensures d + [] + b + o == d + b + [] + o
  {
  }

  /** The poll's assertion on the header it reads: addressed here, and no longer than a packet. */
  lemma PollIsLegal(mc: Machine, i: nat)
    requires LineOk(mc) && ArrivedOk(mc, i)
    ensures Can(mc, Poll)
    ensures mc.slot.Empty? && mc.socket != [] ==> ReadHeader(mc.socket[0]).to == i
  {
    if mc.slot.Empty? && mc.socket != [] {
      OpenedTail(mc.socket);
      NextInLine(mc.delivered + Hand(mc), Unwire(mc.socket[0]), Opened(mc.socket[1..]));
      assert mc.arrived[|mc.delivered + Hand(mc)|] == Unwire(mc.socket[0]);
    }
  }

  lemma PollLine(mc: Machine, r: Machine)
    requires LineOk(mc) && mc.slot.Empty? && mc.socket != [] && Readable(mc)
    requires r == mc.(k := r.k, socket := mc.socket[1..], slot := Full(ReadHeader(mc.socket[0]), Packet(mc.socket[0])))
    ensures LineOk(r)
  {
    OpenedTail(mc.socket);
    NextInLine(mc.delivered + Hand(mc), Unwire(mc.socket[0]), Opened(r.socket));
    assert Inbox(r) == [Unwire(mc.socket[0])] && Hand(r) == Hand(mc);
  }

  lemma PollKeeps(mc: Machine)
    requires MachineOk(mc) && Can(mc, Poll)
    ensures MachineOk(Act(mc, Poll))
  {
    if mc.slot.Empty? && mc.socket != [] {
      var op := OpV(mc.messageAvailable);
      assert ElsewhereOk(mc, op, TheInlet);
      ElsewhereKeeps(mc, op, TheInlet);
      I.ArriveKeeps(Receiving(mc));
      var r := Act(mc, Poll);
      PollLine(mc, r);
      InletRest(mc, r);
    }
  }

  /** A step of the worker or of the poll that leaves the senders and the boxes to the kernel operation. */
  lemma InletRest(mc: Machine, r: Machine)
    requires MachineOk(mc) && OthersOk(mc.(k := r.k), TheInlet) && I.InletOk(Receiving(r)) && LineOk(r)
    requires r == mc.(k := r.k, socket := r.socket, slot := r.slot, job := r.job)
    requires r.job == mc.job || (!mc.job.Putting? && !mc.job.Returning? && !r.job.Putting? && !r.job.Returning?)
    ensures MachineOk(r)
  {
    assert Sending(r) == Sending(mc.(k := r.k));
    forall y | 0 <= y < |r.boxes|
      ensures L.MonitorOk(BoxOf(r, y))
    {
      assert BoxOf(r, y) == BoxOf(mc.(k := r.k), y);
    }
  }

  lemma WorkerPKeeps(mc: Machine)
    requires MachineOk(mc) && Can(mc, WorkerP)
    ensures MachineOk(Act(mc, WorkerP))
  {
    var op := OpP(mc.messageAvailable);
    I.PKeeps(Receiving(mc));
    assert forall y :: 0 <= y < |mc.boxes| ==> mc.worker !in mc.boxes[y].pc;
    assert ElsewhereOk(mc, op, TheInlet);
    ElsewhereKeeps(mc, op, TheInlet);
    var r := Act(mc, WorkerP);
    assert Receiving(r) == I.AfterP(Receiving(mc));
    assert Hand(r) == Hand(mc) && Inbox(r) == Inbox(mc);
    InletRest(mc, r);
  }

  lemma WorkerReceiveKeeps(mc: Machine)
    requires MachineOk(mc) && Can(mc, WorkerReceive)
    ensures MachineOk(Act(mc, WorkerReceive))
  {
    I.WorkerFindsPacket(Receiving(mc));
    var r := Act(mc, WorkerReceive);
    assert Hand(r) == Inbox(mc) && Hand(mc) == Inbox(r) == [];
    MovesUp(mc.delivered, Inbox(mc), Opened(mc.socket));
    assert mc.(k := r.k) == mc;
    InletRest(mc, r);
  }

  /** The worker's assertions hold: the box exists and the mail fits. */
  lemma PutIsLegal(mc: Machine, i: nat)
    requires LineOk(mc) && ArrivedOk(mc, i) && mc.job.Holding?
    ensures PacketOk(mc.job.b)
    ensures var m := Mail(mc.job.h, mc.job.b); 0 <= m.boxTo < |mc.boxes| && |m.data| <= MAX_MAIL_SIZE
  {
    assert mc.arrived[|mc.delivered|] == Mail(mc.job.h, mc.job.b);
  }

  lemma WorkerPutKeeps(mc: Machine)
    requires MachineOk(mc) && Can(mc, WorkerPut)
    ensures MachineOk(Act(mc, WorkerPut))
  {
    var m := Mail(mc.job.h, mc.job.b);
    var x := m.boxTo;
    L.StepKeeps(BoxOf(mc, x), L.StartAppend(m));
    PutStarted(mc, Act(mc, WorkerPut), x, m, L.Act(BoxOf(mc, x), L.StartAppend(m)));
  }

  lemma PutStarted(mc: Machine, r: Machine, x: nat, m: Message, b: L.Monitor<Message>)
    requires MachineOk(mc) && Can(mc, WorkerPut) && m == Mail(mc.job.h, mc.job.b) && x == m.boxTo && L.MonitorOk(b)
    requires b == BoxOf(mc, x).(pc := mc.boxes[x].pc[mc.worker := L.AppendEnter(m)])
    requires r == WithBox(mc, x, b).(job := Putting(x, m))
    ensures MachineOk(r)
  {
    assert Hand(r) == Hand(mc) && Inbox(r) == Inbox(mc);
    assert LineOk(r);
    assert OthersOk(mc, TheBox(x)) && mc.(k := b.k) == mc;
    BoxRest(mc, r, x, b);
  }

  /** A step in box x that leaves it as b and everybody else to the kernel operation. */
  lemma BoxRest(mc: Machine, r: Machine, x: nat, b: L.Monitor<Message>)
    requires MachineOk(mc) && x < |mc.boxes| && L.MonitorOk(b) && OthersOk(mc.(k := b.k), TheBox(x))
    requires b.lock == mc.boxes[x].lock && b.cond == mc.boxes[x].cond
    requires r == WithBox(mc, x, b).(job := r.job, delivered := r.delivered)
    requires forall t :: t in b.pc && t !in mc.boxes[x].pc ==> t == mc.k.ts.current && (Idle(mc) || (t == mc.worker && mc.job.Holding?))
    requires I.InletOk(Receiving(r)) && JobOk(r) && LineOk(r)
    ensures MachineOk(r)
  {
    assert Sending(r) == Sending(mc.(k := b.k));
    forall y | 0 <= y < |r.boxes|
      ensures L.MonitorOk(BoxOf(r, y))
    {
      assert BoxOf(r, y) == if y == x then b else BoxOf(mc.(k := b.k), y);
    }
    BoxApart(mc, r, x, b);
  }

  lemma BoxApart(mc: Machine, r: Machine, x: nat, b: L.Monitor<Message>)
    requires IdsApart(mc) && ThreadsApart(mc) && x < |mc.boxes| && b.lock == mc.boxes[x].lock && b.cond == mc.boxes[x].cond
    requires r == WithBox(mc, x, b).(job := r.job, delivered := r.delivered)
    requires forall t :: t in b.pc && t !in mc.boxes[x].pc ==>
               t !in mc.sendPc && forall y :: 0 <= y < |mc.boxes| ==> t !in mc.boxes[y].pc
    ensures IdsApart(r) && ThreadsApart(r)
  {
    assert forall y :: 0 <= y < |mc.boxes| && y != x ==> r.boxes[y] == mc.boxes[y];
  }

  // ---------------------------------------------------------------- the mailboxes

  /** The kernel operation of a step in a mailbox, if it has one. */
  function BoxOp(b: L.Monitor<Message>, a: L.Action<Message>): Option<Op> {
    match a
    case Enter => Some(OpAcquire(b.lock))
    case DoAppend => Some(OpSignal(b.cond, b.lock))
    case Test => if b.list == [] then Some(OpWait(b.cond, b.lock)) else None
    case WaitReturn => Some(OpWaitReturn)
    case Leave => Some(OpRelease(b.lock))
    case _ => None
  }

  lemma BoxActs(b: L.Monitor<Message>, a: L.Action<Message>)
    requires L.MonitorOk(b) && L.Can(b, a) && !a.Outside?
    ensures match BoxOp(b, a)
            case Some(op) => b.k.ts.current in b.pc && Enabled(b.k, op) && L.Act(b, a).k == Apply(b.k, op) && op != OpFinish
            case None => L.Act(b, a).k == b.k
  {
    if BoxOp(b, a).Some? {
      L.InsideOk(b);
    }
  }

  /** What a thread inside box x does there is an outside operation for everybody else. */
  lemma BoxOpElsewhere(mc: Machine, x: nat, a: L.Action<Message>, op: Op)
    requires MachineOk(mc) && x < |mc.boxes| && mc.k.ts.current in mc.boxes[x].pc
    requires BoxOp(BoxOf(mc, x), a) == Some(op) && Enabled(mc.k, op)
    ensures ElsewhereOk(mc, op, TheBox(x))
  {
    var me := mc.k.ts.current;
    assert me !in mc.sendPc && forall y :: 0 <= y < |mc.boxes| && y != x ==> me !in mc.boxes[y].pc;
    assert me == mc.worker ==> PhaseOf(mc.job).Away?;
  }

  lemma InBoxOthers(mc: Machine, x: nat, a: L.Action<Message>)
    requires MachineOk(mc) && Can(mc, InBox(x, a))
    ensures OthersOk(mc.(k := L.Act(BoxOf(mc, x), a).k), TheBox(x))
  {
    BoxActs(BoxOf(mc, x), a);
    match BoxOp(BoxOf(mc, x), a) {
      case Some(op) =>
        BoxOpElsewhere(mc, x, a, op);
        ElsewhereKeeps(mc, op, TheBox(x));
      case None => assert mc.(k := L.Act(BoxOf(mc, x), a).k) == mc;
    }
  }

  /** The thread of a step in a box moves on in it as the list's code says, and only an append adds mail. */
  ghost predicate BoxMoved(mc: Machine, x: nat, a: L.Action<Message>, b: L.Monitor<Message>)
    requires x < |mc.boxes|
  {
    var me, was := mc.k.ts.current, mc.boxes[x].pc;
    && b.lock == mc.boxes[x].lock && b.cond == mc.boxes[x].cond
    && (forall t :: t != me ==> (t in b.pc <==> t in was) && (t in b.pc ==> b.pc[t] == was[t]))
    && (me in b.pc <==> !a.Leave?)
    && (if a.StartRemove? then me != mc.worker && me !in was else me in was)
    && (me in b.pc && Appends(b.pc[me]) ==> me in was && Appends(was[me]) && b.pc[me].item == was[me].item)
    && (me in was && was[me].AppendIn? ==> a.DoAppend? && b.pc[me] == L.Leaving)
    && (me in was && was[me].AppendEnter? ==> a.Enter? && Appends(b.pc[me]))
    && (me in was && was[me].Leaving? ==> a.Leave?)
    && (a.Leave? ==> was[me].Leaving?)
    && (a.DoAppend? ==> was[me].AppendIn?)
    && b.appended == mc.boxes[x].appended + if a.DoAppend? then [was[me].item] else []
  }

  lemma InBoxMoves(mc: Machine, x: nat, a: L.Action<Message>)
    requires MachineOk(mc) && Can(mc, InBox(x, a))
    ensures BoxMoved(mc, x, a, L.Act(BoxOf(mc, x), a))
  {
  }

  lemma ForBoxMore(s: seq<Message>, m: Message, box: int)
    ensures ForBox(s + [m], box) == ForBox(s, box) + if m.boxTo == box then [m] else []
  {
    assert (s + [m])[..|s|] == s;
  }

  /** The mail the worker has appended leaves its hand and is delivered. */
  lemma AppendedLine(mc: Machine, r: Machine, x: nat)
    requires LineOk(mc) && x < |mc.boxes| == |r.boxes| && mc.job.Putting? && mc.job.m.boxTo == x
    requires r.socket == mc.socket && r.slot == mc.slot && r.arrived == mc.arrived
    requires r.job == Returning(x) && r.delivered == mc.delivered + [mc.job.m]
    requires forall y :: 0 <= y < |mc.boxes| ==>
               r.boxes[y].appended == mc.boxes[y].appended + if y == x then [mc.job.m] else []
    ensures LineOk(r)
  {
    assert Hand(r) == [] && Inbox(r) == Inbox(mc) && Hand(mc) == [mc.job.m];
    DeliveredLine(mc.delivered, mc.job.m, Inbox(mc), Opened(mc.socket));
    forall y | 0 <= y < |r.boxes|
      ensures r.boxes[y].appended == ForBox(r.delivered, y)
    {
      ForBoxMore(mc.delivered, mc.job.m, y);
      assert mc.boxes[y].appended + [] == mc.boxes[y].appended;
    }
  }

  lemma DeliveredLine(d: seq<Message>, m: Message, b: seq<Message>, o: seq<Message>)
    ensures d + [m] + [] + b + o == d + [m] + b + o
  {
  }

  lemma BoxLine(mc: Machine, x: nat, a: L.Action<Message>, b: L.Monitor<Message>)
    requires LineOk(mc) && JobOk(mc) && x < |mc.boxes| && BoxMoved(mc, x, a, b)
    ensures LineOk(AfterBox(mc, x, a, b))
  {
    var me := mc.k.ts.current;
    var r := AfterBox(mc, x, a, b);
    assert forall y :: 0 <= y < |mc.boxes| && y != x ==> r.boxes[y] == mc.boxes[y];
    if a.DoAppend? {
      assert Appends(mc.boxes[x].pc[me]) && me == mc.worker && mc.job.Putting? && mc.job.box == x;
      AppendedLine(mc, r, x);
    } else {
      assert r.boxes[x].appended == mc.boxes[x].appended;
      assert me == mc.worker && a.Leave? ==> mc.job.Returning?;
      assert Hand(r) == Hand(mc) && Inbox(r) == Inbox(mc);
    }
  }

  lemma BoxJob(mc: Machine, x: nat, a: L.Action<Message>, b: L.Monitor<Message>)
    requires JobOk(mc) && x < |mc.boxes| && BoxMoved(mc, x, a, b)
    ensures JobOk(AfterBox(mc, x, a, b))
  {
    var r := AfterBox(mc, x, a, b);
    assert forall y :: 0 <= y < |mc.boxes| && y != x ==> r.boxes[y] == mc.boxes[y];
    if a.DoAppend? {
      AppenderIsWorker(mc, x, a, b);
    }
  }

  lemma AppenderIsWorker(mc: Machine, x: nat, a: L.Action<Message>, b: L.Monitor<Message>)
    requires JobOk(mc) && x < |mc.boxes| && BoxMoved(mc, x, a, b) && a.DoAppend?
    ensures mc.k.ts.current == mc.worker && mc.job.Putting? && mc.job.box == x
  {
    assert Appends(mc.boxes[x].pc[mc.k.ts.current]);
  }

  lemma InBoxKeeps(mc: Machine, x: nat, a: L.Action<Message>)
    requires MachineOk(mc) && Can(mc, InBox(x, a))
    ensures MachineOk(Act(mc, InBox(x, a)))
  {
    var b := L.Act(BoxOf(mc, x), a);
    L.StepKeeps(BoxOf(mc, x), a);
    InBoxOthers(mc, x, a);
    InBoxMoves(mc, x, a);
    BoxLine(mc, x, a, b);
    BoxJob(mc, x, a, b);
    InBoxInlet(mc, x, a, b);
    BoxRest(mc, AfterBox(mc, x, a, b), x, b);
  }

  /** When the worker leaves a box it is back in the code that calls P. */
  lemma InBoxInlet(mc: Machine, x: nat, a: L.Action<Message>, b: L.Monitor<Message>)
    requires MachineOk(mc) && Can(mc, InBox(x, a)) && b == L.Act(BoxOf(mc, x), a) && BoxMoved(mc, x, a, b)
    requires I.InletOk(Receiving(mc.(k := b.k)))
    ensures I.InletOk(Receiving(AfterBox(mc, x, a, b)))
  {
    if a.Leave? && mc.k.ts.current == mc.worker {
      LeavesAtCode(BoxOf(mc, x));
    }
    SameInlet(mc, x, a, b);
  }

  lemma LeavesAtCode(b: L.Monitor<Message>)
    requires L.MonitorOk(b) && L.Can(b, L.Leave)
    ensures var r := L.Act(b, L.Leave).k.ts; b.k.ts.current in r.table && r.table[b.k.ts.current].loc == Code
  {
    BoxActs(b, L.Leave);
    L.InsideOk(b);
    StepFrames(b.k, OpRelease(b.lock));
  }

  lemma SameInlet(mc: Machine, x: nat, a: L.Action<Message>, b: L.Monitor<Message>)
    requires JobOk(mc) && x < |mc.boxes| && BoxMoved(mc, x, a, b) && I.InletOk(Receiving(mc.(k := b.k)))
    requires a.Leave? && mc.k.ts.current == mc.worker ==> b.k.ts.table[mc.worker].loc == Code
    ensures I.InletOk(Receiving(AfterBox(mc, x, a, b)))
  {
    assert mc.k.ts.current == mc.worker ==> PhaseOf(mc.job).Away?;
  }

  /** Every step of every thread, of the network and of the worker keeps the whole invariant. */
  lemma StepKeeps(mc: Machine, s: Step)
    requires MachineOk(mc) && Can(mc, s)
    ensures MachineOk(Act(mc, s))
  {
    match s
    case Foreign(op) => ForeignKeeps(mc, op);
    case Sender(a) => SenderKeeps(mc, a);
    case Poll => PollKeeps(mc);
    case WorkerP => WorkerPKeeps(mc);
    case WorkerReceive => WorkerReceiveKeeps(mc);
    case WorkerPut => WorkerPutKeeps(mc);
    case InBox(x, a) => InBoxKeeps(mc, x, a);
  }
}

/** Post offices (post.cc, network.cc) on any number of machines, over a network that may lose packets but
    keeps their order.  Each machine runs its post office on its own kernel, step by step. */
module PostOffice {
  import opened Options
  import opened Threads
  import opened Synch
  import opened Wire
  import G = Gate
  import L = SynchList
  import I = Inlet
  import O = Office

  datatype Sent = Sent(m: Message, lost: bool)

  /** All machines, and every call of Network::Send in order. */
  datatype World = World(numBoxes: nat, machines: seq<O.Machine>, sent: seq<Sent>)

  datatype Step =
    | On(i: nat, s: O.Step)                          // a step of one machine
    | NetSend(i: nat, lost: bool, pad: seq<Byte>)    // Network::Send by the current thread of machine i

  /** What Send's assertions demand of a message, with the address of a machine that exists. */
  predicate Sendable(w: World, m: Message, i: nat) {
    MessageOk(m) && 0 <= m.to < |w.machines| && 0 <= m.boxTo < w.numBoxes && m.from == i
  }

  predicate Issues(s: O.Step) { s.Sender? && s.a.Issue? }

  ghost predicate Can(w: World, s: Step) {
    && s.i < |w.machines|
    && var mc := w.machines[s.i];
    match s
    case On(_, o) => O.Can(mc, o) && !Issues(o) && (o.Sender? && o.a.Start? ==> Sendable(w, o.a.req, s.i))
    case NetSend(_, _, pad) =>
      && O.Can(mc, O.Sender(G.Issue)) && 0 <= mc.sendPc[mc.k.ts.current].req.to < |w.machines|
      && |pad| == MAX_PACKET_SIZE - HEADER_SIZE - |mc.sendPc[mc.k.ts.current].req.data|
  }

  /** The socket's half of Network::Send. */
  function Socket(mc: O.Machine, m: Message, pad: seq<Byte>): O.Machine {
    mc.(socket := mc.socket + [WireBytes(m, pad)], arrived := mc.arrived + [m])
  }

  function Carried(w: World, m: Message, lost: bool, pad: seq<Byte>): World
    requires 0 <= m.to < |w.machines|
  {
    w.(sent := w.sent + [Sent(m, lost)],
       machines := if lost then w.machines else w.machines[m.to := Socket(w.machines[m.to], m, pad)])
  }

  ghost function Act(w: World, s: Step): World
    requires WorldOk(w) && Can(w, s)
  {
    assert OfficeOk(w, s.i);
    var mc := w.machines[s.i];
    match s
    case On(i, o) => w.(machines := w.machines[i := O.Act(mc, o)])
    case NetSend(i, lost, pad) =>
      Carried(w.(machines := w.machines[i := O.Act(mc, O.Sender(G.Issue))]), mc.sendPc[mc.k.ts.current].req, lost, pad)
  }

  // ---------------------------------------------------------------- the invariant

  /** What the network did not lose, for one machine. */
  function Delivered(sent: seq<Sent>, i: nat): seq<Message> {
    if sent == [] then []
    else
      var last := sent[|sent| - 1];
      Delivered(sent[..|sent| - 1], i) + if !last.lost && last.m.to == i then [last.m] else []
  }

  predicate PendingOk(w: World, i: nat)
    requires i < |w.machines|
  {
    forall t :: t in w.machines[i].sendPc ==> Sendable(w, w.machines[i].sendPc[t].req, i)
  }

  ghost predicate OfficeOk(w: World, i: nat)
    requires i < |w.machines|
  {
    var mc := w.machines[i];
    && O.MachineOk(mc) && O.ArrivedOk(mc, i) && |mc.boxes| == w.numBoxes && PendingOk(w, i)
    && mc.arrived == Delivered(w.sent, i)
  }

  ghost predicate WorldOk(w: World) {
    forall i :: 0 <= i < |w.machines| ==> OfficeOk(w, i)
  }

  // ---------------------------------------------------------------- every step keeps it

  /** What a step of a machine leaves of the socket's history and of the messages being sent. */
  ghost predicate Leaves(mc: O.Machine, r: O.Machine, o: O.Step) {
    && |r.boxes| == |mc.boxes| && r.arrived == mc.arrived
    && forall t :: t in r.sendPc ==>
         if t in mc.sendPc then r.sendPc[t].req == mc.sendPc[t].req
         else o.Sender? && o.a.Start? && r.sendPc[t].req == o.a.req
  }

  lemma StepLeaves(mc: O.Machine, o: O.Step)
    requires O.MachineOk(mc) && O.Can(mc, o)
    ensures Leaves(mc, O.Act(mc, o), o)
  {
    if o.Sender? {
      SenderLeaves(O.Sending(mc), o.a);
    } else {
      OthersLeave(mc, o);
    }
  }

  lemma OthersLeave(mc: O.Machine, o: O.Step)
    requires O.MachineOk(mc) && O.Can(mc, o) && !o.Sender?
    ensures O.Act(mc, o).sendPc == mc.sendPc && |O.Act(mc, o).boxes| == |mc.boxes| && O.Act(mc, o).arrived == mc.arrived
  {
    match o
    case InBox(x, a) => BoxLeaves(mc, x, a, L.Act(O.BoxOf(mc, x), a));
    case _ =>
  }

  lemma BoxLeaves(mc: O.Machine, x: nat, a: L.Action<Message>, m: L.Monitor<Message>)
    requires x < |mc.boxes|
    ensures var r := O.AfterBox(mc, x, a, m); r.sendPc == mc.sendPc && |r.boxes| == |mc.boxes| && r.arrived == mc.arrived
  {
  }

  lemma SenderLeaves(g: G.Gate<Message>, a: G.Action<Message>)
    requires G.GateOk(g) && G.Can(g, a)
    ensures var r := G.Act(g, a);
            forall t :: t in r.pc ==> if t in g.pc then r.pc[t].req == g.pc[t].req else a.Start? && r.pc[t].req == a.req
  {
  }

  lemma StepOk(mc: O.Machine, o: O.Step) returns (r: O.Machine)
    requires O.MachineOk(mc) && O.Can(mc, o)
    ensures r == O.Act(mc, o) && O.MachineOk(r) && Leaves(mc, r, o)
  {
    O.StepKeeps(mc, o);
    StepLeaves(mc, o);
    r := O.Act(mc, o);
  }

  /** A machine that moves without a send stays in order. */
  lemma Moves(w: World, i: nat, r: O.Machine, o: O.Step)
    requires i < |w.machines| && OfficeOk(w, i) && O.MachineOk(r) && Leaves(w.machines[i], r, o)
    requires o.Sender? && o.a.Start? ==> Sendable(w, o.a.req, i)
    ensures OfficeOk(w.(machines := w.machines[i := r]), i)
  {
    var u := w.(machines := w.machines[i := r]);
    forall t | t in r.sendPc
      ensures Sendable(u, r.sendPc[t].req, i)
    {
      if t in w.machines[i].sendPc {
        assert Sendable(w, w.machines[i].sendPc[t].req, i);
      }
    }
  }

  /** A machine is in order if it was and nothing was sent to it. */
  lemma Unmoved(w: World, u: World, j: nat)
    requires j < |w.machines| == |u.machines| && OfficeOk(w, j)
    requires u.machines[j] == w.machines[j] && u.numBoxes == w.numBoxes && Delivered(u.sent, j) == Delivered(w.sent, j)
    ensures OfficeOk(u, j)
  {
    forall t | t in u.machines[j].sendPc
      ensures Sendable(u, u.machines[j].sendPc[t].req, j)
    {
      assert Sendable(w, w.machines[j].sendPc[t].req, j);
    }
  }

  lemma MovedWorld(w: World, i: nat, r: O.Machine, o: O.Step)
    requires WorldOk(w) && i < |w.machines| && O.MachineOk(r) && Leaves(w.machines[i], r, o)
    requires o.Sender? && o.a.Start? ==> Sendable(w, o.a.req, i)
    ensures WorldOk(w.(machines := w.machines[i := r]))
  {
    var u := w.(machines := w.machines[i := r]);
    forall j | 0 <= j < |u.machines|
      ensures OfficeOk(u, j)
    {
      assert OfficeOk(w, j);
      if j == i {
        Moves(w, i, r, o);
      } else {
        Unmoved(w, u, j);
      }
    }
  }

  lemma OnKeeps(w: World, i: nat, o: O.Step)
    requires WorldOk(w) && Can(w, On(i, o))
    ensures WorldOk(Act(w, On(i, o)))
  {
    assert OfficeOk(w, i);
    var r := StepOk(w.machines[i], o);
    MovedWorld(w, i, r, o);
  }

  lemma OpenedMore(socket: seq<seq<Byte>>, b: seq<Byte>)
    requires (forall k :: 0 <= k < |socket| ==> O.WireReadable(socket[k])) && O.WireReadable(b)
    ensures O.Opened(socket + [b]) == O.Opened(socket) + [O.Unwire(b)]
  {
  }

  lemma SocketKeeps(mc: O.Machine, i: nat, m: Message, pad: seq<Byte>)
    requires O.MachineOk(mc) && O.ArrivedOk(mc, i)
    requires MessageOk(m) && m.to == i && 0 <= m.boxTo < |mc.boxes| && |pad| == MAX_PACKET_SIZE - HEADER_SIZE - |m.data|
    ensures O.MachineOk(Socket(mc, m, pad)) && O.ArrivedOk(Socket(mc, m, pad), i)
  {
    WireRoundTrip(m, pad);
    var r := Socket(mc, m, pad);
    SocketLine(mc, r, WireBytes(m, pad), m);
    SameParts(mc, r);
  }

  lemma SocketLine(mc: O.Machine, r: O.Machine, b: seq<Byte>, m: Message)
    requires O.LineOk(mc) && O.WireReadable(b) && O.Unwire(b) == m
    requires r == mc.(socket := mc.socket + [b], arrived := mc.arrived + [m])
    ensures O.LineOk(r)
  {
    OpenedMore(mc.socket, b);
    assert O.Hand(r) == O.Hand(mc) && O.Inbox(r) == O.Inbox(mc);
    LineMore(mc.delivered, O.Hand(mc), O.Inbox(mc), O.Opened(mc.socket), m);
  }

  lemma LineMore(d: seq<Message>, h: seq<Message>, b: seq<Message>, o: seq<Message>, m: Message)
    ensures d + h + b + (o + [m]) == d + h + b + o + [m]
  {
  }

  lemma SameParts(mc: O.Machine, r: O.Machine)
    requires O.MachineOk(mc) && r == mc.(socket := r.socket, arrived := r.arrived) && O.LineOk(r)
    ensures O.MachineOk(r)
  {
    assert O.Sending(r) == O.Sending(mc) && O.Receiving(r) == O.Receiving(mc);
    forall x | 0 <= x < |r.boxes|
      ensures L.MonitorOk(O.BoxOf(r, x))
    {
      assert O.BoxOf(r, x) == O.BoxOf(mc, x);
    }
  }

  lemma DeliveredMore(sent: seq<Sent>, x: Sent, i: nat)
    ensures Delivered(sent + [x], i) == Delivered(sent, i) + if !x.lost && x.m.to == i then [x.m] else []
  {
    assert (sent + [x])[..|sent|] == sent;
  }

  /** The socket's half of a send, on a world in order. */
  lemma SentOffice(w: World, m: Message, lost: bool, pad: seq<Byte>, j: nat)
    requires WorldOk(w) && j < |w.machines| && MessageOk(m) && 0 <= m.to < |w.machines| && 0 <= m.boxTo < w.numBoxes
    requires |pad| == MAX_PACKET_SIZE - HEADER_SIZE - |m.data|
    ensures OfficeOk(Carried(w, m, lost, pad), j)
  {
    assert OfficeOk(w, j);
    var u := Carried(w, m, lost, pad);
    DeliveredMore(w.sent, Sent(m, lost), j);
    if !lost && m.to == j {
      var mc := w.machines[j];
      SocketKeeps(mc, j, m, pad);
      StillPending(w, u, j);
    } else {
      Unmoved(w, u, j);
    }
  }

  lemma StillPending(w: World, u: World, j: nat)
    requires j < |w.machines| == |u.machines| && w.numBoxes == u.numBoxes && PendingOk(w, j)
    requires u.machines[j].sendPc == w.machines[j].sendPc
    ensures PendingOk(u, j)
  {
    forall t | t in u.machines[j].sendPc
      ensures Sendable(u, u.machines[j].sendPc[t].req, j)
    {
      assert Sendable(w, w.machines[j].sendPc[t].req, j);
    }
  }

  lemma NetSendKeeps(w: World, i: nat, lost: bool, pad: seq<Byte>)
    requires WorldOk(w) && Can(w, NetSend(i, lost, pad))
    ensures WorldOk(Act(w, NetSend(i, lost, pad)))
  {
    assert OfficeOk(w, i);
    var mc := w.machines[i];
    var m := mc.sendPc[mc.k.ts.current].req;
    assert Sendable(w, m, i);
    var r := StepOk(mc, O.Sender(G.Issue));
    MovedWorld(w, i, r, O.Sender(G.Issue));
    CarriedWorld(w.(machines := w.machines[i := r]), m, lost, pad);
  }

  lemma CarriedWorld(w: World, m: Message, lost: bool, pad: seq<Byte>)
    requires WorldOk(w) && MessageOk(m) && 0 <= m.to < |w.machines| && 0 <= m.boxTo < w.numBoxes
    requires |pad| == MAX_PACKET_SIZE - HEADER_SIZE - |m.data|
    ensures WorldOk(Carried(w, m, lost, pad))
  {
    forall j | 0 <= j < |w.machines|
      ensures OfficeOk(Carried(w, m, lost, pad), j)
    {
      SentOffice(w, m, lost, pad, j);
    }
  }

  lemma StepKeeps(w: World, s: Step)
    requires WorldOk(w) && Can(w, s)
    ensures WorldOk(Act(w, s))
  {
    match s
    case On(i, o) => OnKeeps(w, i, o);
    case NetSend(i, lost, pad) => NetSendKeeps(w, i, lost, pad);
  }

  // ---------------------------------------------------------------- assertions of the source

  /** At every call of Network::Send no send interrupt is outstanding, and the assertions of Send and of
      Network::Send hold. */
  lemma NoneOutstandingWhenSending(w: World, i: nat)
    requires WorldOk(w) && i < |w.machines| && O.Can(w.machines[i], O.Sender(G.Issue))
    ensures var mc := w.machines[i];
            && !mc.outstanding && !mc.sendBusy
            && mc.k.ts.current in mc.sendPc && Sendable(w, mc.sendPc[mc.k.ts.current].req, i)
  {
    assert OfficeOk(w, i);
    G.OneAtATime(O.Sending(w.machines[i]));
  }

  /** The network's flag has nothing to do with it: nothing sets it, so it is false also right after a send,
      while the interrupt is outstanding. */
  lemma FlagDoesNotTrack(w: World, s: Step)
    requires WorldOk(w) && Can(w, s) && s.NetSend?
    ensures var mc := Act(w, s).machines[s.i]; mc.outstanding && !mc.sendBusy
  {
    assert OfficeOk(w, s.i);
    SendSets(w.machines[s.i]);
  }

  lemma SendSets(mc: O.Machine)
    requires O.MachineOk(mc) && O.Can(mc, O.Sender(G.Issue))
    ensures var r := O.Act(mc, O.Sender(G.Issue)); r.outstanding && !r.sendBusy
  {
  }

  /** The poll and the worker never meet a packet that is not legal, and the worker past P finds one. */
  lemma ArrivalsAreLegal(w: World, i: nat)
    requires WorldOk(w) && i < |w.machines|
    ensures var mc := w.machines[i];
            && O.Can(mc, O.Poll) && (mc.slot.Empty? && mc.socket != [] ==> ReadHeader(mc.socket[0]).to == i)
            && (mc.job.PastP? ==> mc.slot.Full?)
            && (mc.job.Holding? ==>
                  && PacketOk(mc.job.b)
                  && var m := Mail(mc.job.h, mc.job.b); 0 <= m.boxTo < w.numBoxes && |m.data| <= MAX_MAIL_SIZE)
  {
    assert OfficeOk(w, i);
    var mc := w.machines[i];
    O.PollIsLegal(mc, i);
    I.WorkerFindsPacket(O.Receiving(mc));
    if mc.job.Holding? {
      O.PutIsLegal(mc, i);
    }
  }

  // ---------------------------------------------------------------- whole runs

  ghost predicate Runs(w: World, steps: seq<Step>)
    requires WorldOk(w)
    decreases |steps|
  {
    steps == [] || (Can(w, steps[0]) && (StepKeeps(w, steps[0]); Runs(Act(w, steps[0]), steps[1..])))
  }

  /** The world a run ends in; every run keeps the invariant. */
  ghost function After(w: World, steps: seq<Step>): (r: World)
    requires WorldOk(w) && Runs(w, steps)
    ensures WorldOk(r) && |r.machines| == |w.machines| && r.numBoxes == w.numBoxes
    decreases |steps|
  {
    if steps == [] then w
    else StepKeeps(w, steps[0]); After(Act(w, steps[0]), steps[1..])
  }

  // ---------------------------------------------------------------- the beginning

  function Below(n: nat): (r: set<Id>)
    ensures forall x: Id :: x in r <==> x < n
  {
    if n == 0 then {} else Below(n - 1) + {n - 1}
  }

  /** A machine once its post office is made: main runs, the postal worker has been made, all is empty. */
  function Boot(numBoxes: nat): O.Machine {
    O.Machine(
      Kernel(System(0, map[0 := Thread(Running, Code, true), 1 := Thread(JustCreated, Code, false)], [], map[], None, 0),
             (map l | l in Below(numBoxes) :: Lock(false, 0, {}))[numBoxes := Lock(false, 0, {})],
             map[0 := 0, 1 := 0], map c | c in Below(numBoxes) :: 0),
      numBoxes, 0, 1, 1, map[], false, 0, 0, false,
      [], O.Empty, O.InP, seq(numBoxes, x requires 0 <= x => O.Box(x, x, map[], [], [], [])), [], [])
  }

  function Start(n: nat, numBoxes: nat): World {
    World(numBoxes, seq(n, i => Boot(numBoxes)), [])
  }

  lemma BootKernel(numBoxes: nat)
    ensures KernelOk(Boot(numBoxes).k)
  {
    var k := Boot(numBoxes).k;
    assert Placed(k.ts, 0) && Placed(k.ts, 1);
    assert forall q :: Waiters(k.ts, q) == [];
  }

  lemma BootIsOk(numBoxes: nat)
    ensures O.MachineOk(Boot(numBoxes))
  {
    var mc := Boot(numBoxes);
    BootKernel(numBoxes);
    G.FreshIsOk(O.Sending(mc));
    forall x | 0 <= x < |mc.boxes|
      ensures L.MonitorOk(O.BoxOf(mc, x))
    {
      L.FreshIsOk(O.BoxOf(mc, x));
    }
    assert O.Hand(mc) == [] && O.Inbox(mc) == [] && O.Opened(mc.socket) == [];
  }

  lemma StartIsOk(n: nat, numBoxes: nat)
    ensures WorldOk(Start(n, numBoxes))
  {
    BootIsOk(numBoxes);
  }

  lemma OneStep(w: World, s: Step)
    requires WorldOk(w) && Can(w, s)
    ensures Runs(w, [s]) && After(w, [s]) == Act(w, s)
  {
    StepKeeps(w, s);
    assert [s][1..] == [];
  }

  lemma First(w: World, u: World, s: Step, rest: seq<Step>)
    requires WorldOk(w) && Can(w, s) && u == Act(w, s) && WorldOk(u) && Runs(u, rest)
    ensures Runs(w, [s] + rest) && After(w, [s] + rest) == After(u, rest)
  {
    assert ([s] + rest)[1..] == rest;
  }

  lemma Started(mc: O.Machine, m: Message)
    requires O.MachineOk(mc) && O.Can(mc, O.Sender(G.Start(m)))
    ensures var r := O.Act(mc, O.Sender(G.Start(m)));
            && O.Can(r, O.Sender(G.Enter)) && r.sendPc[r.k.ts.current] == G.Entering(m)
            && r.k == mc.k && r.sendLock == mc.sendLock
  {
  }

  lemma Entered(mc: O.Machine, m: Message)
    requires O.MachineOk(mc) && O.Can(mc, O.Sender(G.Enter)) && mc.sendPc[mc.k.ts.current] == G.Entering(m)
    requires mc.sendLock in mc.k.locks && !mc.k.locks[mc.sendLock].taken
    ensures var r := O.Act(mc, O.Sender(G.Enter));
            O.Can(r, O.Sender(G.Issue)) && r.sendPc[r.k.ts.current].req == m
  {
  }

  /** Whatever a machine sends first, a run reaches a state with its interrupt outstanding and the flag false. */
  lemma OutstandingWithoutFlag(w: World, i: nat, m: Message, lost: bool, pad: seq<Byte>) returns (steps: seq<Step>)
    requires WorldOk(w) && i < |w.machines| && O.Can(w.machines[i], O.Sender(G.Start(m))) && Sendable(w, m, i)
    requires w.machines[i].sendLock in w.machines[i].k.locks && !w.machines[i].k.locks[w.machines[i].sendLock].taken
    requires |pad| == MAX_PACKET_SIZE - HEADER_SIZE - |m.data|
    ensures Runs(w, steps) && After(w, steps).machines[i].outstanding && !After(w, steps).machines[i].sendBusy
  {
    assert OfficeOk(w, i);
    var u := StartSending(w, i, m);
    var v := EnterFree(u, i, m);
    FlagDoesNotTrack(v, NetSend(i, lost, pad));
    OneStep(v, NetSend(i, lost, pad));
    First(u, v, On(i, O.Sender(G.Enter)), [NetSend(i, lost, pad)]);
    First(w, u, On(i, O.Sender(G.Start(m))), [On(i, O.Sender(G.Enter))] + [NetSend(i, lost, pad)]);
    steps := [On(i, O.Sender(G.Start(m)))] + ([On(i, O.Sender(G.Enter))] + [NetSend(i, lost, pad)]);
  }

  lemma StartSending(w: World, i: nat, m: Message) returns (u: World)
    requires WorldOk(w) && i < |w.machines| && O.Can(w.machines[i], O.Sender(G.Start(m))) && Sendable(w, m, i)
    ensures Can(w, On(i, O.Sender(G.Start(m)))) && u == Act(w, On(i, O.Sender(G.Start(m)))) && WorldOk(u)
    ensures |u.machines| == |w.machines| && u.numBoxes == w.numBoxes
    ensures var mc := u.machines[i];
            O.Can(mc, O.Sender(G.Enter)) && mc.sendPc[mc.k.ts.current] == G.Entering(m)
            && mc.k == w.machines[i].k && mc.sendLock == w.machines[i].sendLock
  {
    assert OfficeOk(w, i);
    var s := On(i, O.Sender(G.Start(m)));
    StepKeeps(w, s);
    Started(w.machines[i], m);
    u := Act(w, s);
  }

  lemma EnterFree(w: World, i: nat, m: Message) returns (u: World)
    requires WorldOk(w) && i < |w.machines| && O.Can(w.machines[i], O.Sender(G.Enter))
    requires w.machines[i].sendPc[w.machines[i].k.ts.current] == G.Entering(m)
    requires w.machines[i].sendLock in w.machines[i].k.locks && !w.machines[i].k.locks[w.machines[i].sendLock].taken
    ensures Can(w, On(i, O.Sender(G.Enter))) && u == Act(w, On(i, O.Sender(G.Enter))) && WorldOk(u)
    ensures |u.machines| == |w.machines|
    ensures var mc := u.machines[i]; O.Can(mc, O.Sender(G.Issue)) && mc.sendPc[mc.k.ts.current].req == m
  {
    assert OfficeOk(w, i);
    var s := On(i, O.Sender(G.Enter));
    StepKeeps(w, s);
    Entered(w.machines[i], m);
    u := Act(w, s);
  }

  // ---------------------------------------------------------------- what a mailbox yields

  /** The messages of one sender, in order. */
  function From(s: seq<Message>, a: int): seq<Message> {
    if s == [] then []
    else From(s[..|s| - 1], a) + if s[|s| - 1].from == a then [s[|s| - 1]] else []
  }

  /** All that machine a sent to box of machine i, lost or not. */
  function Sends(sent: seq<Sent>, a: int, i: nat, box: int): seq<Message> {
    if sent == [] then []
    else
      var m := sent[|sent| - 1].m;
      Sends(sent[..|sent| - 1], a, i, box) + if m.from == a && m.to == i && m.boxTo == box then [m] else []
  }

  predicate Subsequence<T(==)>(s: seq<T>, t: seq<T>)
    decreases |t|
  {
    if s == [] then true
    else if t == [] then false
    else
      || (s[|s| - 1] == t[|t| - 1] && Subsequence(s[..|s| - 1], t[..|t| - 1]))
      || Subsequence(s, t[..|t| - 1])
  }

  lemma FromMore(s: seq<Message>, m: Message, a: int)
    ensures From(s + [m], a) == From(s, a) + if m.from == a then [m] else []
  {
    assert (s + [m])[..|s|] == s;
  }

  lemma {:induction false} FromPrefix(s: seq<Message>, t: seq<Message>, a: int)
    ensures From(s, a) <= From(s + t, a)
    decreases |t|
  {
    if t == [] {
      assert s + t == s;
    } else {
      var u := t[..|t| - 1];
      FromPrefix(s, u, a);
      assert s + t == (s + u) + [t[|t| - 1]];
      FromMore(s + u, t[|t| - 1], a);
    }
  }

  lemma {:induction false} ForBoxConcat(s: seq<Message>, t: seq<Message>, box: int)
    ensures O.ForBox(s + t, box) == O.ForBox(s, box) + O.ForBox(t, box)
    decreases |t|
  {
    if t == [] {
      assert s + t == s;
    } else {
      var u := t[..|t| - 1];
      ForBoxConcat(s, u, box);
      assert s + t == (s + u) + [t[|t| - 1]];
      O.ForBoxMore(s + u, t[|t| - 1], box);
    }
  }

  /** What the network kept of a's messages for a box is what a sent there, less what was lost. */
  lemma {:induction false} KeptInOrder(sent: seq<Sent>, a: int, i: nat, box: int)
    ensures Subsequence(From(O.ForBox(Delivered(sent, i), box), a), Sends(sent, a, i, box))
    decreases |sent|
  {
    if sent != [] {
      var init, last := sent[..|sent| - 1], sent[|sent| - 1];
      KeptInOrder(init, a, i, box);
      var d := Delivered(init, i);
      assert init + [last] == sent;
      DeliveredMore(init, last, i);
      KeptStep(d, last.m, !last.lost && last.m.to == i, a, box);
      var counted := last.m.from == a && last.m.to == i && last.m.boxTo == box;
      GrowSubsequence(From(O.ForBox(d, box), a), Sends(init, a, i, box), last.m, counted && !last.lost, counted);
    }
  }

  lemma KeptStep(d: seq<Message>, m: Message, kept: bool, a: int, box: int)
    ensures From(O.ForBox(d + (if kept then [m] else []), box), a)
            == From(O.ForBox(d, box), a) + if kept && m.boxTo == box && m.from == a then [m] else []
  {
    if kept {
      O.ForBoxMore(d, m, box);
      if m.boxTo == box {
        FromMore(O.ForBox(d, box), m, a);
      } else {
        assert O.ForBox(d, box) + [] == O.ForBox(d, box);
      }
    } else {
      assert d + [] == d;
    }
  }

  lemma GrowSubsequence(s: seq<Message>, t: seq<Message>, m: Message, kept: bool, counted: bool)
    requires Subsequence(s, t) && (kept ==> counted)
    ensures Subsequence(s + (if kept then [m] else []), t + if counted then [m] else [])
  {
    assert (s + [m])[..|s|] == s && (t + [m])[..|t|] == t;
    assert s + [] == s && t + [] == t;
  }

  lemma {:induction false} PrefixOfSubsequence(p: seq<Message>, s: seq<Message>, t: seq<Message>)
    requires p <= s && Subsequence(s, t)
    ensures Subsequence(p, t)
    decreases |t|
  {
    if p != [] {
      var t1 := t[..|t| - 1];
      if Subsequence(s, t1) {
        PrefixOfSubsequence(p, s, t1);
      } else {
        var s1 := s[..|s| - 1];
        if p == s {
        } else {
          PrefixOfSubsequence(p, s1, t1);
        }
      }
    }
  }

  /** Everything the network did not lose is in exactly one place: taken, in its box, in the worker's hand,
      in the inbox, or in the socket, in this order. */
  lemma NothingIsLostInside(w: World, i: nat, box: nat)
    requires WorldOk(w) && i < |w.machines| && box < w.numBoxes
    ensures OfficeOk(w, i)
    ensures var mc := w.machines[i];
            mc.boxes[box].removed + mc.boxes[box].list
            + O.ForBox(O.Hand(mc) + O.Inbox(mc) + O.Opened(mc.socket), box)
            == O.ForBox(Delivered(w.sent, i), box)
  {
    assert OfficeOk(w, i);
    var mc := w.machines[i];
    assert L.MonitorOk(O.BoxOf(mc, box));
    InsideAll(mc.delivered, O.Hand(mc), O.Inbox(mc), O.Opened(mc.socket), box);
  }

  lemma InsideAll(d: seq<Message>, h: seq<Message>, b: seq<Message>, o: seq<Message>, box: int)
    ensures O.ForBox(d, box) + O.ForBox(h + b + o, box) == O.ForBox(d + h + b + o, box)
  {
    assert d + (h + b + o) == d + h + b + o;
    ForBoxConcat(d, h + b + o, box);
  }

  lemma TakenInOrder(w: World, a: nat, i: nat, box: nat)
    requires WorldOk(w) && i < |w.machines| && box < w.numBoxes
    ensures OfficeOk(w, i)
    ensures Subsequence(From(w.machines[i].boxes[box].removed, a), Sends(w.sent, a, i, box))
  {
    NothingIsLostInside(w, i, box);
    KeptInOrder(w.sent, a, i, box);
    var mc := w.machines[i];
    FirstPart(mc.boxes[box].removed, mc.boxes[box].list, O.ForBox(O.Hand(mc) + O.Inbox(mc) + O.Opened(mc.socket), box),
              O.ForBox(Delivered(w.sent, i), box), a, Sends(w.sent, a, i, box));
  }

  lemma FirstPart(taken: seq<Message>, boxed: seq<Message>, inside: seq<Message>, all: seq<Message>, a: int, t: seq<Message>)
    requires taken + boxed + inside == all && Subsequence(From(all, a), t)
    ensures Subsequence(From(taken, a), t)
  {
    assert taken + (boxed + inside) == all;
    FromPrefix(taken, boxed + inside, a);
    PrefixOfSubsequence(From(taken, a), From(all, a), t);
  }

  /** In every interleaving of any threads on any machines, what a mailbox yields from a given sender is an
      in-order, unduplicated, uncorrupted subsequence of what that sender sent to it. */
  lemma MailArrivesInOrder(w: World, steps: seq<Step>, a: nat, i: nat, box: nat)
    requires WorldOk(w) && Runs(w, steps) && i < |w.machines| && box < w.numBoxes
    ensures var r := After(w, steps);
            OfficeOk(r, i) && Subsequence(From(r.machines[i].boxes[box].removed, a), Sends(r.sent, a, i, box))
  {
    TakenInOrder(After(w, steps), a, i, box);
  }
}

/** What the poll, the postal worker and the network do with a packet (network.cc, post.cc), from the socket of one
    machine to a mailbox. */
module Delivery {
  import opened Threads
  import opened Synch
  import opened Wire
  import S = SynchLaws
  import C = Calls
  import G = Gate
  import I = Inlet
  import L = SynchList
  import O = Office
  import P = PostOffice

  // ---------------------------------------------------------------- the poll

  /** The poll moves the first packet of the socket into an empty inbox, raises the semaphore to one and readies the
      worker if it sleeps; with the inbox full or the socket empty it does nothing. */
  lemma PollFills(mc: O.Machine)
    requires O.MachineOk(mc) && O.Can(mc, O.Poll)
    ensures var r := O.Act(mc, O.Poll);
            if mc.slot.Full? || mc.socket == [] then r == mc
            else
              && r.slot == O.Full(ReadHeader(mc.socket[0]), Packet(mc.socket[0])) && [mc.socket[0]] + r.socket == mc.socket
              && r == mc.(k := r.k, slot := r.slot, socket := r.socket)
              && mc.messageAvailable in r.k.sems && r.k.sems[mc.messageAvailable] == 1
              && r.k.ts.ready == mc.k.ts.ready + S.FirstOf(Waiters(mc.k.ts, SemQueue(mc.messageAvailable)))
  {
    I.WorkerFindsPacket(O.Receiving(mc));
    S.VReadiesFirst(mc.k, mc.messageAvailable);
  }

  // ---------------------------------------------------------------- the worker's turn

  /** The worker runs, about to take a packet that is there and whose mailbox nobody holds. */
  ghost predicate HasMail(mc: O.Machine, m: Message) {
    && O.MachineOk(mc) && IsRunning(mc.k.ts) && mc.k.ts.current == mc.worker && mc.job.InP? && mc.slot.Full?
    && PacketOk(mc.slot.b) && m == Mail(mc.slot.h, mc.slot.b) && 0 <= m.boxTo < |mc.boxes|
    && mc.boxes[m.boxTo].lock in mc.k.locks && !mc.k.locks[mc.boxes[m.boxTo].lock].taken
  }

  lemma PassesP(mc: O.Machine, m: Message) returns (r: O.Machine)
    requires HasMail(mc, m)
    ensures O.Can(mc, O.WorkerP) && r == O.Act(mc, O.WorkerP) && O.MachineOk(r)
    ensures r == mc.(k := r.k, job := O.PastP) && r.k.ts.current == mc.worker && IsRunning(r.k.ts) && Me(r.k).loc == Code
    ensures r.k.locks == mc.k.locks
  {
    O.StepKeeps(mc, O.WorkerP);
    r := O.Act(mc, O.WorkerP);
    S.PTakesOrSleeps(mc.k, mc.messageAvailable);
  }

  lemma Receives(mc: O.Machine, m: Message) returns (r: O.Machine)
    requires O.MachineOk(mc) && mc.job.PastP? && mc.slot.Full? && PacketOk(mc.slot.b) && m == Mail(mc.slot.h, mc.slot.b)
    requires IsRunning(mc.k.ts) && mc.k.ts.current == mc.worker
    ensures O.Can(mc, O.WorkerReceive) && r == O.Act(mc, O.WorkerReceive) && O.MachineOk(r)
    ensures r == mc.(slot := O.Empty, job := O.Holding(mc.slot.h, mc.slot.b))
  {
    O.StepKeeps(mc, O.WorkerReceive);
    r := O.Act(mc, O.WorkerReceive);
  }

  /** The worker holds the mail and is in no mailbox. */
  ghost predicate Carries(mc: O.Machine, m: Message) {
    && O.MachineOk(mc) && mc.job.Holding? && PacketOk(mc.job.b) && m == Mail(mc.job.h, mc.job.b) && 0 <= m.boxTo < |mc.boxes|
    && mc.k.ts.current == mc.worker && C.Idle(O.BoxOf(mc, m.boxTo))
  }

  lemma Puts(mc: O.Machine, m: Message, b1: L.Monitor<Message>) returns (r: O.Machine)
    requires Carries(mc, m)
    requires L.Can(O.BoxOf(mc, m.boxTo), L.StartAppend(m)) && b1 == L.Act(O.BoxOf(mc, m.boxTo), L.StartAppend(m))
    ensures O.Can(mc, O.WorkerPut) && r == O.Act(mc, O.WorkerPut) && O.MachineOk(r)
    ensures r == O.WithBox(mc, m.boxTo, b1).(job := O.Putting(m.boxTo, m)) && O.BoxOf(r, m.boxTo) == b1
  {
    O.StepKeeps(mc, O.WorkerPut);
    r := O.Act(mc, O.WorkerPut);
  }

  /** The step s is possible in mc and leads to r. */
  ghost predicate Leads(mc: O.Machine, s: O.Step, r: O.Machine) {
    O.MachineOk(mc) && O.Can(mc, s) && r == O.Act(mc, s) && O.MachineOk(r)
  }

  lemma EntersBox(mc: O.Machine, x: nat, b: L.Monitor<Message>) returns (r: O.Machine)
    requires O.MachineOk(mc) && x < |mc.boxes| && L.Can(O.BoxOf(mc, x), L.Enter) && b == L.Act(O.BoxOf(mc, x), L.Enter)
    ensures Leads(mc, O.InBox(x, L.Enter), r) && r == O.WithBox(mc, x, b)
  {
    O.StepKeeps(mc, O.InBox(x, L.Enter));
    r := O.Act(mc, O.InBox(x, L.Enter));
  }

  lemma AppendsInBox(mc: O.Machine, x: nat, m: Message, b: L.Monitor<Message>) returns (r: O.Machine)
    requires O.MachineOk(mc) && x < |mc.boxes| && mc.k.ts.current == mc.worker && mc.job == O.Putting(x, m)
    requires L.Can(O.BoxOf(mc, x), L.DoAppend) && b == L.Act(O.BoxOf(mc, x), L.DoAppend)
    ensures Leads(mc, O.InBox(x, L.DoAppend), r)
    ensures r == O.WithBox(mc, x, b).(delivered := mc.delivered + [m], job := O.Returning(x))
  {
    O.StepKeeps(mc, O.InBox(x, L.DoAppend));
    r := O.Act(mc, O.InBox(x, L.DoAppend));
  }

  lemma LeavesBox(mc: O.Machine, x: nat, b: L.Monitor<Message>) returns (r: O.Machine)
    requires O.MachineOk(mc) && x < |mc.boxes| && mc.k.ts.current == mc.worker
    requires L.Can(O.BoxOf(mc, x), L.Leave) && b == L.Act(O.BoxOf(mc, x), L.Leave)
    ensures Leads(mc, O.InBox(x, L.Leave), r) && r == O.WithBox(mc, x, b).(job := O.InP)
  {
    O.StepKeeps(mc, O.InBox(x, L.Leave));
    r := O.Act(mc, O.InBox(x, L.Leave));
  }

  lemma BoxAgain(mc: O.Machine, x: nat, a: L.Monitor<Message>, b: L.Monitor<Message>)
    requires x < |mc.boxes|
    ensures O.BoxOf(O.WithBox(mc, x, b), x) == b && O.WithBox(O.WithBox(mc, x, a), x, b) == O.WithBox(mc, x, b)
  {
  }

  /** In its mailbox: the mail goes in, and the worker comes out. */
  lemma PutEnds(h: O.Machine, mc: O.Machine, m: Message, b2: L.Monitor<Message>, b3: L.Monitor<Message>, b4: L.Monitor<Message>)
    returns (m3: O.Machine, r: O.Machine)
    requires O.MachineOk(mc) && 0 <= m.boxTo < |h.boxes| && mc == O.WithBox(h, m.boxTo, b2).(job := O.Putting(m.boxTo, m))
    requires b2.k.ts.current == b3.k.ts.current == mc.worker
    requires L.MonitorOk(b2) && L.Can(b2, L.DoAppend) && b3 == L.Act(b2, L.DoAppend)
    requires L.MonitorOk(b3) && L.Can(b3, L.Leave) && b4 == L.Act(b3, L.Leave)
    ensures Leads(mc, O.InBox(m.boxTo, L.DoAppend), m3) && Leads(m3, O.InBox(m.boxTo, L.Leave), r)
    ensures r == O.WithBox(h, m.boxTo, b4).(delivered := h.delivered + [m], job := O.InP)
  {
    var x := m.boxTo;
    BoxAgain(h, x, b2, b3);
    BoxAgain(h, x, b3, b4);
    BoxAgain(h, x, b3, b2);
    m3 := AppendsInBox(mc, x, m, b3);
    r := LeavesBox(m3, x, b4);
  }

  lemma PutBegins(h: O.Machine, m: Message, b1: L.Monitor<Message>, b2: L.Monitor<Message>) returns (m1: O.Machine, m2: O.Machine)
    requires Carries(h, m)
    requires L.Can(O.BoxOf(h, m.boxTo), L.StartAppend(m)) && b1 == L.Act(O.BoxOf(h, m.boxTo), L.StartAppend(m))
    requires L.MonitorOk(b1) && L.Can(b1, L.Enter) && b2 == L.Act(b1, L.Enter)
    ensures Leads(h, O.WorkerPut, m1) && Leads(m1, O.InBox(m.boxTo, L.Enter), m2)
    ensures m2 == O.WithBox(h, m.boxTo, b2).(job := O.Putting(m.boxTo, m))
  {
    m1 := Puts(h, m, b1);
    BoxAgain(h, m.boxTo, b1, b2);
    m2 := EntersBox(m1, m.boxTo, b2);
  }

  /** From the mail in its hand to the end of MailBox::Put. */
  lemma PutCompletes(h: O.Machine, m: Message) returns (m1: O.Machine, m2: O.Machine, m3: O.Machine, r: O.Machine)
    requires Carries(h, m)
    ensures Leads(h, O.WorkerPut, m1) && Leads(m1, O.InBox(m.boxTo, L.Enter), m2)
    ensures Leads(m2, O.InBox(m.boxTo, L.DoAppend), m3) && Leads(m3, O.InBox(m.boxTo, L.Leave), r)
    ensures Delivered(h, r, m) && r.slot == h.slot && r.socket == h.socket
  {
    var b1, b2, b3, b4 := C.AppendCompletes(O.BoxOf(h, m.boxTo), m);
    m1, m2 := PutBegins(h, m, b1, b2);
    m3, r := PutEnds(h, m2, m, b2, b3, b4);
    InItsBox(h, m, b4, r);
  }

  /** The message is last in its mailbox, the other mailboxes are as they were and the worker is back at P. */
  ghost predicate Delivered(mc: O.Machine, r: O.Machine, m: Message)
    requires 0 <= m.boxTo < |mc.boxes|
  {
    && r.job == O.InP && r.delivered == mc.delivered + [m] && |r.boxes| == |mc.boxes|
    && r.boxes[m.boxTo].list == mc.boxes[m.boxTo].list + [m]
    && forall y :: 0 <= y < |mc.boxes| && y != m.boxTo ==> r.boxes[y] == mc.boxes[y]
  }

  lemma InItsBox(h: O.Machine, m: Message, b: L.Monitor<Message>, r: O.Machine)
    requires 0 <= m.boxTo < |h.boxes| && b.list == h.boxes[m.boxTo].list + [m]
    requires r == O.WithBox(h, m.boxTo, b).(delivered := h.delivered + [m], job := O.InP)
    ensures Delivered(h, r, m) && r.slot == h.slot && r.socket == h.socket
  {
  }

  /** One turn of PostalDelivery, when a packet is there and its mailbox is free: every step is possible, the packet
      leaves the inbox, its message is last in its mailbox and nowhere else, and the worker is back at P. */
  lemma WorkerTurn(mc: O.Machine, m: Message)
    returns (p: O.Machine, h: O.Machine, m1: O.Machine, m2: O.Machine, m3: O.Machine, r: O.Machine)
    requires HasMail(mc, m)
    ensures Leads(mc, O.WorkerP, p) && Leads(p, O.WorkerReceive, h) && Leads(h, O.WorkerPut, m1)
    ensures Leads(m1, O.InBox(m.boxTo, L.Enter), m2) && Leads(m2, O.InBox(m.boxTo, L.DoAppend), m3)
    ensures Leads(m3, O.InBox(m.boxTo, L.Leave), r)
    ensures Delivered(mc, r, m) && r.slot == O.Empty && r.socket == mc.socket
  {
    p, h := TakesPacket(mc, m);
    m1, m2, m3, r := PutCompletes(h, m);
  }

  lemma TakesPacket(mc: O.Machine, m: Message) returns (p: O.Machine, h: O.Machine)
    requires HasMail(mc, m)
    ensures Leads(mc, O.WorkerP, p) && Leads(p, O.WorkerReceive, h) && Carries(h, m)
    ensures h == mc.(k := h.k, job := h.job, slot := O.Empty)
  {
    p := PassesP(mc, m);
    h := Receives(p, m);
    BoxIsIdle(h, m.boxTo);
  }

  lemma BoxIsIdle(h: O.Machine, x: nat)
    requires O.MachineOk(h) && x < |h.boxes| && h.job.Holding? && h.k.ts.current == h.worker
    requires IsRunning(h.k.ts) && Me(h.k).loc == Code && h.boxes[x].lock in h.k.locks && !h.k.locks[h.boxes[x].lock].taken
    ensures C.Idle(O.BoxOf(h, x))
  {
    assert L.MonitorOk(O.BoxOf(h, x));
  }

  // ---------------------------------------------------------------- the network

  /** A packet that the network does not lose is last in the socket of the machine it is sent to, and the send is on
      record; one it loses is on record only. */
  lemma SendPutsOnWire(w: P.World, s: P.Step)
    requires P.WorldOk(w) && P.Can(w, s) && s.NetSend?
    ensures var mc := w.machines[s.i];
            var m, r := mc.sendPc[mc.k.ts.current].req, P.Act(w, s);
            && r.sent == w.sent + [P.Sent(m, s.lost)] && |r.machines| == |w.machines|
            && forall j :: 0 <= j < |w.machines| ==>
                 r.machines[j].socket == w.machines[j].socket + (if !s.lost && j == m.to then [WireBytes(m, s.pad)] else [])
  {
    assert P.OfficeOk(w, s.i);
  }
}

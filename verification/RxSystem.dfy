/**
 The whole receive path of `src/core/rx.rs`: driver, kernel, command channel, consumer and the
 threads that give buffers back, in every interleaving without a driver failure.
 */
module RxSystem {
  import opened Common
  import opened RxShared
  import opened RxDriver

  /**
   `readLive`: the kernel holds a multishot read. `published` buffers are in the ring and `held`
   packets are with the application. `draining`: the driver is taking commands and looks at
   completions only when the channel is empty. `history` lists the packets in the order the kernel
   completed them. `stopped`: a stop was acknowledged and no start has been handled since.
   */
  datatype Sys = Sys(
    d: Driver, n: nat, readLive: bool, cq: seq<Cqe>, overflow: seq<Cqe>, commands: seq<Command>,
    draining: bool, published: nat, held: nat, history: seq<nat>, delivered: seq<nat>, stopped: bool)

  function Spawned(threshold: nat, n: nat): Sys {
    Sys(Initial(threshold), n, false, [], [], [], false, n, 0, [], [], false)
  }

  function Backlog(s: Sys): seq<Cqe> { s.cq + s.overflow }

  // ----- steps -----

  datatype Event =
    | PacketRead(len: nat, accepted: bool, more: bool, spill: bool)
    | ReadFailed(res: int, spill: bool)
    | CancelDone(res: int, spill: bool)
    | Flush
    | Request(command: Command)
    | Recv
    | Recycle
    | BeginDrain
    | EndDrain
    | Obey(ring: bool)
    | Reap(ring: bool)

  /** A handler outcome that does not reach `fail`. */
  predicate ObeysFine(d: Driver, c: Command, ring: bool) {
    !HandleCommand(d, c, ring).err && (c.Stop? ==> !BeginStop(d, c.ack, ring).err)
  }

  predicate Enabled(s: Sys, e: Event) {
    match e
    case PacketRead(_, _, _, _) => s.readLive && s.published > 0
    case ReadFailed(res, _) => s.readLive && res < 0
    case CancelDone(_, _) => true
    case Flush => s.overflow != []
    case Request(c) => !c.AutoResumeCheck?
    case Recv => s.d.shared.packets != []
    case Recycle => s.held > 0
    case BeginDrain => !s.draining
    case EndDrain => s.draining && s.commands == []
    case Obey(ring) => s.draining && s.commands != [] && ObeysFine(s.d, s.commands[0], ring)
    case Reap(ring) => !s.draining && s.cq != [] && !HandleCqe(s.d, s.cq[0], ring).err
  }

  /** A completion goes to the overflow list when the queue is full or the list is not empty. */
  function Post(s: Sys, c: Cqe, spill: bool): (r: Sys)
    ensures r == s.(cq := r.cq, overflow := r.overflow) && Backlog(r) == Backlog(s) + [c]
  {
    if spill || s.overflow != [] then s.(overflow := s.overflow + [c]) else s.(cq := s.cq + [c])
  }

  predicate AckedStop(d: Driver, d': Driver) {
    |d'.acks| > |d.acks| && d'.acks[|d'.acks| - 1].StopAck? && d'.acks[|d'.acks| - 1].ok
  }

  /** The driver moved on; a submitted read is live in the kernel. */
  function Drive(s: Sys, d: Driver): Sys {
    s.(d := d, readLive := s.readLive || d.submitted != s.d.submitted, stopped := s.stopped || AckedStop(s.d, d))
  }

  function Step(s: Sys, e: Event): Sys
    requires Enabled(s, e)
  {
    match e
    case PacketRead(len, accepted, more, spill) =>
      var packet := |s.history|;
      Post(s, ReadCqe(packet, len, accepted, more), spill)
        .(readLive := more, published := s.published - 1, history := s.history + [packet])
    case ReadFailed(res, spill) => Post(s, ReadCqe(0, res, false, false), spill).(readLive := false)
    case CancelDone(res, spill) => Post(s, CancelCqe(res), spill)
    case Flush => s.(cq := s.cq + [s.overflow[0]], overflow := s.overflow[1..])
    case Request(c) => s.(commands := s.commands + [c])
    case Recv =>
      s.(d := s.d.(shared := TryRecv(s.d.shared).0), delivered := s.delivered + [s.d.shared.packets[0]], held := s.held + 1)
    case Recycle =>
      var (auto, send) := NoteRecycled(s.d.auto);
      s.(d := s.d.(auto := auto), held := s.held - 1, published := s.published + 1,
         commands := s.commands + (if send then [AutoResumeCheck] else []))
    case BeginDrain => s.(draining := true)
    case EndDrain => s.(draining := false)
    case Obey(ring) =>
      var c := s.commands[0];
      var s1 := Drive(s, HandleCommand(s.d, c, ring).d).(commands := s.commands[1..]);
      if c.Start? then s1.(stopped := false) else s1
    case Reap(ring) => Drive(s, HandleCqe(s.d, s.cq[0], ring).d).(cq := s.cq[1..])
  }

  // ----- what the backlog looks like -----

  predicate NoReads(b: seq<Cqe>) {
    forall i :: 0 <= i < |b| ==> b[i].CancelCqe?
  }

  predicate AllMore(b: seq<Cqe>) {
    forall i :: 0 <= i < |b| ==> b[i].CancelCqe? || (b[i].more && b[i].res >= 0)
  }

  /** The read's last completion is at i, and its only one without MORE. */
  predicate EndsAt(b: seq<Cqe>, i: int) {
    && 0 <= i < |b| && b[i].ReadCqe? && !b[i].more
    && AllMore(b[..i]) && NoReads(b[i + 1..])
  }

  ghost predicate Ends(b: seq<Cqe>) {
    exists i :: EndsAt(b, i)
  }

  /** The packet of a completion, if it has one. */
  function PacketOf(c: Cqe): seq<nat> { if c.ReadCqe? && c.res >= 0 then [c.packet] else [] }

  /** The packets among the completions. */
  function Packets(b: seq<Cqe>): seq<nat>
    decreases |b|
  {
    if |b| == 0 then []
    else PacketOf(b[0]) + Packets(b[1..])
  }

  function Checks(commands: seq<Command>): nat
    decreases |commands|
  {
    if |commands| == 0 then 0 else (if commands[0].AutoResumeCheck? then 1 else 0) + Checks(commands[1..])
  }

  lemma {:induction false} PacketsAppend(b: seq<Cqe>, c: Cqe)
    ensures Packets(b + [c]) == Packets(b) + PacketOf(c)
    decreases |b|
  {
    if |b| == 0 {
      assert b + [c] == [c];
    } else {
      assert (b + [c])[1..] == b[1..] + [c];
      PacketsAppend(b[1..], c);
    }
  }

  lemma {:induction false} ChecksAppend(commands: seq<Command>, c: Command)
    ensures Checks(commands + [c]) == Checks(commands) + (if c.AutoResumeCheck? then 1 else 0)
    decreases |commands|
  {
    if |commands| == 0 {
      assert commands + [c] == [c];
    } else {
      assert (commands + [c])[1..] == commands[1..] + [c];
      ChecksAppend(commands[1..], c);
    }
  }

  // ----- the invariant -----

  /** What the kernel still has to say about the read agrees with what the driver believes. */
  ghost predicate ReadsOk(s: Sys) {
    && (s.readLive ==> s.d.readActive && AllMore(Backlog(s)))
    && (!s.readLive && s.d.readActive ==> Ends(Backlog(s)))
    && (!s.d.readActive ==> NoReads(Backlog(s)))
  }

  /** Delivered, then queued, then completed packets are the kernel's packets in its order. */
  ghost predicate Fifo(s: Sys) {
    s.delivered + s.d.shared.packets + Packets(Backlog(s)) == s.history
  }

  /** Every buffer is in the ring, in a completion, or behind a packet. */
  ghost predicate Conserved(s: Sys) {
    s.published + |Packets(Backlog(s))| + |s.d.shared.packets| + s.held == s.n
  }

  /** While a fault is armed a check is queued exactly if `threshold` buffers came back since. */
  ghost predicate AutoOk(s: Sys) {
    var a := s.d.auto;
    && (a.pending ==>
          && a.threshold > 0 && !s.d.readActive && !s.d.running
          && a.wake == (a.recycled >= a.threshold)
          && Checks(s.commands) == (if a.wake then 1 else 0)
          && a.recycled <= s.published)
    && (!a.pending ==> Checks(s.commands) <= if s.draining then 1 else 0)
  }

  /** The thresholds that never restart a stopped driver. */
  predicate OutOfReach(s: Sys) { s.d.auto.threshold == 0 || s.d.auto.threshold > s.n }

  ghost predicate Quiet(s: Sys) {
    !s.d.running && !s.d.readActive && !s.readLive && s.d.stopAck.None?
  }

  ghost predicate Inv(s: Sys) {
    && LoopInv(s.d) && ReadsOk(s) && Fifo(s) && Conserved(s) && AutoOk(s)
    && (s.stopped && OutOfReach(s) ==> Quiet(s))
  }

  // ----- every step keeps it -----

  lemma PacketReadKeeps(s: Sys, e: Event)
    requires Inv(s) && e.PacketRead? && Enabled(s, e)
    ensures Inv(Step(s, e))
  {
    hide Packets, Checks;
    var c := ReadCqe(|s.history|, e.len, e.accepted, e.more);
    var b, t := Backlog(s), Step(s, e);
    PacketsAppend(b, c);
    assert Backlog(t) == b + [c];
    if !e.more {
      assert (b + [c])[..|b|] == b;
      assert EndsAt(Backlog(t), |b|);
    }
  }

  lemma ReadFailedKeeps(s: Sys, e: Event)
    requires Inv(s) && e.ReadFailed? && Enabled(s, e)
    ensures Inv(Step(s, e))
  {
    hide Packets, Checks;
    var c := ReadCqe(0, e.res, false, false);
    var b, t := Backlog(s), Step(s, e);
    PacketsAppend(b, c);
    assert Backlog(t) == b + [c];
    assert (b + [c])[..|b|] == b;
    assert EndsAt(Backlog(t), |b|);
  }

  lemma CancelDoneKeeps(s: Sys, e: Event)
    requires Inv(s) && e.CancelDone? && Enabled(s, e)
    ensures Inv(Step(s, e))
  {
    hide Packets, Checks;
    var c := CancelCqe(e.res);
    var b, t := Backlog(s), Step(s, e);
    PacketsAppend(b, c);
    assert Backlog(t) == b + [c];
    if Ends(b) {
      var i :| EndsAt(b, i);
      assert (b + [c])[..i] == b[..i] && (b + [c])[i + 1..] == b[i + 1..] + [c];
      assert EndsAt(Backlog(t), i);
    }
  }

  lemma FlushKeeps(s: Sys)
    requires Inv(s) && Enabled(s, Flush)
    ensures Inv(Step(s, Flush))
  {
    hide Packets, Checks;
    assert Backlog(Step(s, Flush)) == Backlog(s);
  }

  lemma OthersKeep(s: Sys, e: Event)
    requires Inv(s) && Enabled(s, e) && (e.Request? || e.Recv? || e.BeginDrain? || e.EndDrain?)
    ensures Inv(Step(s, e))
  {
    hide Packets;
    if e.Request? {
      ChecksAppend(s.commands, e.command);
    }
  }

  lemma RecycleKeeps(s: Sys)
    requires Inv(s) && Enabled(s, Recycle)
    ensures Inv(Step(s, Recycle))
  {
    hide Packets, Checks;
    var t := Step(s, Recycle);
    if NoteRecycled(s.d.auto).1 {
      ChecksAppend(s.commands, AutoResumeCheck);
    } else {
      assert t.commands == s.commands;
    }
    assert Backlog(t) == Backlog(s);
  }

  /** A command submits a read only if none is active, and leaves the packets alone. */
  lemma CommandReads(d: Driver, c: Command, ring: bool)
    requires ObeysFine(d, c, ring)
    ensures var t := HandleCommand(d, c, ring).d;
            && t.shared.packets == d.shared.packets
            && (if t.submitted == d.submitted then t.readActive == d.readActive else !d.readActive && t.readActive)
  {
  }

  lemma ObeyReads(s: Sys, ring: bool)
    requires ReadsOk(s) && Enabled(s, Obey(ring))
    ensures var t := Step(s, Obey(ring));
            ReadsOk(t) && Backlog(t) == Backlog(s) && t.d.shared.packets == s.d.shared.packets
  {
    hide Packets, Checks, Ends, AckedStop, HandleCommand;
    CommandReads(s.d, s.commands[0], ring);
    assert NoReads(Backlog(s)) ==> AllMore(Backlog(s));
  }

  /** Every command disarms. */
  lemma CommandDisarms(d: Driver, c: Command, ring: bool)
    requires ObeysFine(d, c, ring)
    ensures !HandleCommand(d, c, ring).d.auto.pending
  {
  }

  lemma ObeyAuto(s: Sys, ring: bool)
    requires AutoOk(s) && Enabled(s, Obey(ring))
    ensures AutoOk(Step(s, Obey(ring)))
  {
    hide Packets, Backlog, AckedStop, HandleCommand;
    CommandDisarms(s.d, s.commands[0], ring);
  }

  lemma ObeyQuiet(s: Sys, ring: bool)
    requires Enabled(s, Obey(ring)) && LoopInv(s.d) && AutoOk(s) && s.published <= s.n
    requires s.readLive ==> s.d.readActive
    requires s.stopped && OutOfReach(s) ==> Quiet(s)
    ensures var t := Step(s, Obey(ring)); t.stopped && OutOfReach(t) ==> Quiet(t)
  {
    hide Packets, Backlog;
  }

  lemma ObeyCounts(s: Sys, ring: bool)
    requires ReadsOk(s) && Fifo(s) && Conserved(s) && Enabled(s, Obey(ring))
    ensures Fifo(Step(s, Obey(ring))) && Conserved(Step(s, Obey(ring)))
  {
    hide Packets, HandleCommand, Backlog, ReadsOk;
    ObeyReads(s, ring);
  }

  lemma ObeyKeeps(s: Sys, ring: bool)
    requires Inv(s) && Enabled(s, Obey(ring))
    ensures Inv(Step(s, Obey(ring)))
  {
    ObeyReads(s, ring);
    ObeyAuto(s, ring);
    ObeyQuiet(s, ring);
    ObeyCounts(s, ring);
    CommandKeepsLoopInv(s.d, s.commands[0], ring);
    hide AutoOk, HandleCommand, Quiet, OutOfReach, Backlog, ReadsOk, Fifo, Conserved;
  }

  /** Taking the first completion of a read that still has its last one to come. */
  lemma EndsTail(b: seq<Cqe>)
    requires |b| > 0 && Ends(b)
    ensures b[0].ReadCqe? && !b[0].more ==> NoReads(b[1..])
    ensures b[0].CancelCqe? || b[0].more ==> Ends(b[1..])
    ensures b[0].ReadCqe? && b[0].more ==> b[0].res >= 0
  {
    var i :| EndsAt(b, i);
    if i == 0 {
    } else {
      assert b[0] == b[..i][0];
      assert b[1..][..i - 1] == b[..i][1..] && b[1..][i..] == b[i + 1..];
      assert EndsAt(b[1..], i - 1);
    }
  }

  /** What the first completion of the backlog can be. */
  lemma ReapReads(s: Sys, ring: bool)
    requires ReadsOk(s) && LoopInv(s.d) && Enabled(s, Reap(ring))
    ensures ReadsOk(Step(s, Reap(ring)))
    ensures s.cq[0].ReadCqe? ==> s.d.readActive
    ensures s.cq[0].ReadCqe? && s.cq[0].res < 0 ==> !s.cq[0].more
    ensures s.cq[0].ReadCqe? && !s.cq[0].more ==> !s.readLive
  {
    var b, t := Backlog(s), Step(s, Reap(ring));
    assert b[0] == s.cq[0] && Backlog(t) == b[1..];
    if !s.readLive && s.d.readActive {
      EndsTail(b);
    }
  }

  /** The packet of a handled completion moves to the end of the queue. */
  lemma ReapAccounts(s: Sys, ring: bool)
    requires Enabled(s, Reap(ring))
    ensures var t := Step(s, Reap(ring));
            && Packets(Backlog(s)) == PacketOf(s.cq[0]) + Packets(Backlog(t))
            && t.d.shared.packets == s.d.shared.packets + PacketOf(s.cq[0])
  {
    hide AckedStop;
    var t := Step(s, Reap(ring));
    assert t.d.shared.packets == s.d.shared.packets + PacketOf(s.cq[0]);
    hide HandleCqe;
    assert Backlog(s)[0] == s.cq[0] && Backlog(t) == Backlog(s)[1..];
  }

  lemma ReapAuto(s: Sys, ring: bool)
    requires AutoOk(s) && Enabled(s, Reap(ring))
    requires s.cq[0].ReadCqe? ==> s.d.readActive
    requires s.cq[0].ReadCqe? && s.cq[0].res < 0 ==> !s.cq[0].more
    ensures AutoOk(Step(s, Reap(ring)))
  {
    hide Packets, Checks, Backlog;
  }

  lemma ReapQuiet(s: Sys, ring: bool)
    requires Enabled(s, Reap(ring)) && LoopInv(s.d)
    requires s.cq[0].ReadCqe? ==> s.d.readActive
    requires s.cq[0].ReadCqe? && !s.cq[0].more ==> !s.readLive
    requires s.stopped && OutOfReach(s) ==> Quiet(s)
    ensures var t := Step(s, Reap(ring)); t.stopped && OutOfReach(t) ==> Quiet(t)
  {
    hide Packets, Checks, Backlog;
  }

  lemma Shift(a: seq<nat>, b: seq<nat>, c: seq<nat>, d: seq<nat>)
    ensures a + (b + c) + d == a + b + (c + d)
  {
  }

  lemma ReapCounts(s: Sys, ring: bool)
    requires Fifo(s) && Conserved(s) && Enabled(s, Reap(ring))
    ensures Fifo(Step(s, Reap(ring))) && Conserved(Step(s, Reap(ring)))
  {
    hide Packets, HandleCqe, Backlog;
    ReapAccounts(s, ring);
    var t := Step(s, Reap(ring));
    Shift(s.delivered, s.d.shared.packets, PacketOf(s.cq[0]), Packets(Backlog(t)));
  }

  lemma ReapKeeps(s: Sys, ring: bool)
    requires Inv(s) && Enabled(s, Reap(ring))
    ensures Inv(Step(s, Reap(ring)))
  {
    ReapReads(s, ring);
    ReapAuto(s, ring);
    ReapQuiet(s, ring);
    ReapCounts(s, ring);
    CqeKeepsLoopInv(s.d, s.cq[0], ring);
    hide ReadsOk, AutoOk, Fifo, Conserved, HandleCqe, Quiet, OutOfReach, Backlog;
  }

  lemma StepKeeps(s: Sys, e: Event)
    requires Inv(s) && Enabled(s, e)
    ensures Inv(Step(s, e))
  {
    hide Inv, Enabled, Step;
    match e {
      case PacketRead(_, _, _, _) => PacketReadKeeps(s, e);
      case ReadFailed(_, _) => ReadFailedKeeps(s, e);
      case CancelDone(_, _) => CancelDoneKeeps(s, e);
      case Flush => FlushKeeps(s);
      case Recycle => RecycleKeeps(s);
      case Obey(ring) => ObeyKeeps(s, ring);
      case Reap(ring) => ReapKeeps(s, ring);
      case _ => OthersKeep(s, e);
    }
  }

  // ----- whole runs -----

  ghost predicate IsRun(s: Sys, events: seq<Event>, t: Sys)
    decreases |events|
  {
    if |events| == 0 then s == t
    else Enabled(s, events[0]) && IsRun(Step(s, events[0]), events[1..], t)
  }

  lemma {:induction false} RunKeeps(s: Sys, events: seq<Event>, t: Sys)
    requires Inv(s) && IsRun(s, events, t)
    ensures Inv(t)
    decreases |events|
  {
    hide Inv, Enabled, Step;
    if |events| > 0 {
      StepKeeps(s, events[0]);
      RunKeeps(Step(s, events[0]), events[1..], t);
    }
  }

  lemma StartsWell(threshold: nat, n: nat)
    ensures Inv(Spawned(threshold, n))
  {
  }

  /** In every run packets come out in the order the kernel completed them, and no buffer is lost. */
  lemma PacketsInKernelOrder(threshold: nat, n: nat, events: seq<Event>, t: Sys)
    requires IsRun(Spawned(threshold, n), events, t)
    ensures t.delivered + t.d.shared.packets + Packets(t.cq + t.overflow) == t.history
    ensures t.published + |Packets(t.cq + t.overflow)| + |t.d.shared.packets| + t.held == t.n
  {
    hide IsRun, Packets, AutoOk, ReadsOk, LoopInv;
    StartsWell(threshold, n);
    RunKeeps(Spawned(threshold, n), events, t);
  }

  // ----- auto-resume -----

  /** A recycled buffer queues a check exactly when it is the `threshold`-th since the fault. */
  lemma CheckAtThreshold(s: Sys)
    requires Inv(s) && Enabled(s, Recycle)
    ensures var a := s.d.auto;
            Step(s, Recycle).commands
            == s.commands + if a.pending && a.recycled + 1 == a.threshold then [AutoResumeCheck] else []
  {
    hide ReadsOk, Fifo, Conserved, Quiet;
  }

  /** A fault stays armed along the whole run. */
  ghost predicate StaysArmed(s: Sys, events: seq<Event>, t: Sys)
    decreases |events|
  {
    && s.d.auto.pending
    && if |events| == 0 then s == t
       else Enabled(s, events[0]) && StaysArmed(Step(s, events[0]), events[1..], t)
  }

  function Recycles(events: seq<Event>): nat
    decreases |events|
  {
    if |events| == 0 then 0 else (if events[0].Recycle? then 1 else 0) + Recycles(events[1..])
  }

  lemma ArmedStep(s: Sys, e: Event)
    requires Inv(s) && s.d.auto.pending && Enabled(s, e) && Step(s, e).d.auto.pending
    ensures var a, b := s.d.auto, Step(s, e).d.auto;
            b.threshold == a.threshold && b.recycled == a.recycled + if e.Recycle? then 1 else 0
  {
    hide Fifo, Conserved, Quiet, Packets, Checks, AckedStop, HandleCommand, HandleCqe;
    if e.Reap? {
      assert Backlog(s)[0] == s.cq[0];
      ArmedHandlers(s.d, Shutdown, s.cq[0], e.ring);
    } else if e.Obey? {
      ArmedHandlers(s.d, s.commands[0], CancelCqe(0), e.ring);
    }
  }

  /** No command leaves a fault armed, and a cancel completion does not touch it. */
  lemma ArmedHandlers(d: Driver, command: Command, cqe: Cqe, ring: bool)
    requires d.auto.pending && cqe.CancelCqe? && LoopInv(d)
    ensures !HandleCommand(d, command, ring).err ==> !HandleCommand(d, command, ring).d.auto.pending
    ensures HandleCqe(d, cqe, ring).d.auto == d.auto
  {
  }

  /** While a fault is armed the recycled buffers are counted exactly, and the command channel holds
      one check if at least `threshold` of them came back and none otherwise. */
  lemma {:induction false} OneCheckPerFault(s: Sys, events: seq<Event>, t: Sys)
    requires Inv(s) && StaysArmed(s, events, t)
    ensures t.d.auto.threshold == s.d.auto.threshold > 0
    ensures t.d.auto.recycled == s.d.auto.recycled + Recycles(events)
    ensures Checks(t.commands) == if s.d.auto.recycled + Recycles(events) >= s.d.auto.threshold then 1 else 0
    decreases |events|
  {
    hide Step, Enabled, ReadsOk, Fifo, Conserved, Quiet, LoopInv, Checks;
    if |events| > 0 {
      StepKeeps(s, events[0]);
      ArmedStep(s, events[0]);
      OneCheckPerFault(Step(s, events[0]), events[1..], t);
    }
  }

  /** A check that finds no armed fault leaves everything else alone. */
  lemma StaleCheck(s: Sys, ring: bool)
    requires s.draining && s.commands != [] && s.commands[0].AutoResumeCheck? && !s.d.auto.pending
    ensures Enabled(s, Obey(ring)) && Step(s, Obey(ring)) == s.(commands := s.commands[1..])
  {
  }

  /** The driver starts running without a Start only on a check with `threshold` buffers published. */
  lemma RestartHasBuffers(s: Sys, e: Event)
    requires Inv(s) && Enabled(s, e) && !s.d.running && Step(s, e).d.running
    requires !(e.Obey? && s.commands[0].Start?)
    ensures e.Obey? && s.commands[0].AutoResumeCheck? && s.d.auto.pending
    ensures s.published >= s.d.auto.threshold > 0
  {
    hide ReadsOk, Fifo, Conserved, Quiet, Packets, AckedStop;
  }

  // ----- an acknowledged stop -----

  /** No Start is handled along the run. */
  ghost predicate NoStart(s: Sys, events: seq<Event>)
    decreases |events|
  {
    |events| > 0 ==>
      && !(events[0].Obey? && s.commands != [] && s.commands[0].Start?)
      && (Enabled(s, events[0]) ==> NoStart(Step(s, events[0]), events[1..]))
  }

  lemma QuietStep(s: Sys, e: Event)
    requires Inv(s) && s.stopped && OutOfReach(s) && Enabled(s, e) && !(e.Obey? && s.commands[0].Start?)
    ensures var t := Step(s, e);
            t.stopped && OutOfReach(t) && t.history == s.history && t.d.submitted == s.d.submitted
  {
    hide Fifo, Packets, AckedStop;
    if e.Reap? {
      assert Backlog(s)[0] == s.cq[0];
    }
  }

  /** After an acknowledged stop, until a Start is handled, the kernel holds no read, no read is
      submitted and no packet is added to those the kernel had completed before. */
  lemma {:induction false} StopIsQuiet(s: Sys, events: seq<Event>, t: Sys)
    requires Inv(s) && s.stopped && OutOfReach(s) && IsRun(s, events, t) && NoStart(s, events)
    ensures t.stopped && !t.readLive && !t.d.readActive && !t.d.running && NoReads(t.cq + t.overflow)
    ensures t.d.submitted == s.d.submitted && t.delivered + t.d.shared.packets == s.history
    decreases |events|
  {
    if |events| > 0 {
      hide Step, Inv, Quiet, OutOfReach, NoReads;
      StepKeeps(s, events[0]);
      QuietStep(s, events[0]);
      StopIsQuiet(Step(s, events[0]), events[1..], t);
    } else {
      NoPackets(Backlog(s));
    }
  }

  lemma {:induction false} NoPackets(b: seq<Cqe>)
    requires NoReads(b)
    ensures Packets(b) == []
    decreases |b|
  {
    if |b| > 0 {
      NoPackets(b[1..]);
    }
  }

  ghost predicate Reaches(s: Sys, t: Sys) {
    exists events :: IsRun(s, events, t)
  }

  lemma {:induction false} OneMore(s: Sys, events: seq<Event>, t: Sys, e: Event)
    requires IsRun(s, events, t) && Enabled(t, e)
    ensures IsRun(s, events + [e], Step(t, e))
    decreases |events|
  {
    hide Step, Enabled;
    if |events| == 0 {
      assert events + [e] == [e];
    } else {
      assert (events + [e])[1..] == events[1..] + [e];
      OneMore(Step(s, events[0]), events[1..], t, e);
    }
  }

  lemma Extend(s: Sys, t: Sys, e: Event) returns (u: Sys)
    requires Reaches(s, t) && Enabled(t, e)
    ensures u == Step(t, e) && Reaches(s, u)
  {
    hide Step, Enabled, IsRun;
    var events :| IsRun(s, events, t);
    OneMore(s, events, t, e);
    u := Step(t, e);
  }

  // ----- thresholds within reach: a stopped driver restarts -----

  function Upto(k: nat): seq<nat> { seq(k, (i: nat) => i) }

  /** Started; k packets were read, handled and taken. */
  function Reading(threshold: nat, n: nat, k: nat): Sys
    requires k <= n
  {
    var d := Driver(true, true, None, false, Auto(threshold, false, 0, false), Shared(Running, [], None), 1, 0, [StartAck(0, true)]);
    Sys(d, n, true, [], [], [], false, n - k, k, Upto(k), Upto(k), false)
  }

  /** The read ended for want of buffers while a stop was pending; j buffers came back since. */
  function Exhausted(threshold: nat, n: nat, j: nat): Sys
    requires j <= n
  {
    var d := Driver(false, false, None, false, Auto(threshold, true, j, false), Shared(Stopped, [], None), 1, 1,
                    [StartAck(0, true), StopAck(1, true)]);
    Sys(d, n, false, [], [], [], false, j, n - j, Upto(n), Upto(n), true)
  }

  lemma ReachesReading(threshold: nat, n: nat)
    ensures Reaches(Spawned(threshold, n), Reading(threshold, n, 0))
  {
    var s := Spawned(threshold, n);
    assert IsRun(s, [], s);
    var t := Extend(s, s, Request(Start(0)));
    t := Extend(s, t, BeginDrain);
    t := Extend(s, t, Obey(true));
    t := Extend(s, t, EndDrain);
    assert t == Reading(threshold, n, 0);
  }

  /** ... and packet k has completed. */
  function PacketInQueue(threshold: nat, n: nat, k: nat): Sys
    requires k < n
  {
    Reading(threshold, n, k).(cq := [ReadCqe(k, 100, true, true)], published := n - k - 1, history := Upto(k) + [k])
  }

  /** ... and was handled. */
  function PacketReady(threshold: nat, n: nat, k: nat): Sys
    requires k < n
  {
    var s := PacketInQueue(threshold, n, k);
    s.(cq := [], d := s.d.(shared := Shared(Running, [k], None)))
  }

  lemma ReadStep(threshold: nat, n: nat, k: nat)
    requires k < n
    ensures var s, e := Reading(threshold, n, k), PacketRead(100, true, true, false);
            Enabled(s, e) && Step(s, e) == PacketInQueue(threshold, n, k)
  {
  }

  lemma ReapStep(threshold: nat, n: nat, k: nat)
    requires k < n
    ensures var s := PacketInQueue(threshold, n, k);
            Enabled(s, Reap(true)) && Step(s, Reap(true)) == PacketReady(threshold, n, k)
  {
    hide Upto;
  }

  lemma RecvStep(threshold: nat, n: nat, k: nat)
    requires k < n
    ensures var s := PacketReady(threshold, n, k);
            Enabled(s, Recv) && Step(s, Recv) == Reading(threshold, n, k + 1)
  {
    assert Upto(k + 1) == Upto(k) + [k];
  }

  lemma ReadAndTake(threshold: nat, n: nat, k: nat)
    requires k < n
    requires Reaches(Spawned(threshold, n), Reading(threshold, n, k))
    ensures Reaches(Spawned(threshold, n), Reading(threshold, n, k + 1))
  {
    hide Reaches, Reading, PacketInQueue, PacketReady, Enabled, Step;
    var s := Spawned(threshold, n);
    ReadStep(threshold, n, k);
    var t := Extend(s, Reading(threshold, n, k), PacketRead(100, true, true, false));
    ReapStep(threshold, n, k);
    t := Extend(s, t, Reap(true));
    RecvStep(threshold, n, k);
    t := Extend(s, t, Recv);
  }

  lemma {:induction false} ReachesDrained(threshold: nat, n: nat, k: nat)
    requires k <= n
    ensures Reaches(Spawned(threshold, n), Reading(threshold, n, k))
    decreases k
  {
    hide Reaches, Reading;
    if k == 0 {
      ReachesReading(threshold, n);
    } else {
      ReachesDrained(threshold, n, k - 1);
      ReadAndTake(threshold, n, k - 1);
    }
  }

  lemma ReachesExhausted(threshold: nat, n: nat)
    requires threshold > 0
    ensures Reaches(Spawned(threshold, n), Exhausted(threshold, n, 0))
  {
    hide Reaches;
    var s := Spawned(threshold, n);
    ReachesDrained(threshold, n, n);
    var t := Extend(s, Reading(threshold, n, n), ReadFailed(-ENOBUFS, false));
    t := Extend(s, t, Request(Stop(1)));
    t := Extend(s, t, BeginDrain);
    t := Extend(s, t, Obey(true));
    t := Extend(s, t, EndDrain);
    t := Extend(s, t, Reap(true));
    assert t == Exhausted(threshold, n, 0);
  }

  lemma {:induction false} ReachesRecycled(threshold: nat, n: nat, j: nat)
    requires j < threshold <= n
    ensures Reaches(Spawned(threshold, n), Exhausted(threshold, n, j))
    decreases j
  {
    hide Reaches;
    if j == 0 {
      ReachesExhausted(threshold, n);
    } else {
      ReachesRecycled(threshold, n, j - 1);
      var t := Extend(Spawned(threshold, n), Exhausted(threshold, n, j - 1), Recycle);
      assert t.commands == [];
      assert t == Exhausted(threshold, n, j);
    }
  }

  /** With a threshold the buffers can reach, a stop that meets an exhausted ring is undone: after
      its acknowledgement the driver is reading again without a Start. */
  lemma StoppedYetReading(threshold: nat, n: nat) returns (t: Sys)
    requires 0 < threshold <= n
    ensures Reaches(Spawned(threshold, n), t) && t.stopped && t.d.running && t.readLive
  {
    hide Reaches;
    var s := Spawned(threshold, n);
    ReachesRecycled(threshold, n, threshold - 1);
    t := Extend(s, Exhausted(threshold, n, threshold - 1), Recycle);
    assert t.commands == [AutoResumeCheck];
    t := Extend(s, t, BeginDrain);
    t := Extend(s, t, Obey(true));
  }

  /** In every run: after an acknowledged stop the kernel holds no read until a Start. */
  ghost predicate StopHolds(threshold: nat, n: nat) {
    forall t :: Reaches(Spawned(threshold, n), t) && t.stopped ==> !t.readLive && NoReads(t.cq + t.overflow)
  }

  lemma StepSizes(s: Sys, e: Event)
    requires Enabled(s, e)
    ensures Step(s, e).n == s.n && Step(s, e).d.auto.threshold == s.d.auto.threshold
  {
    hide AckedStop, Backlog, HandleCommand, HandleCqe;
    if e.Obey? {
      ThresholdStays(s.d, s.commands[0], CancelCqe(0), e.ring);
    } else if e.Reap? {
      ThresholdStays(s.d, Shutdown, s.cq[0], e.ring);
    }
  }

  lemma ThresholdStays(d: Driver, command: Command, cqe: Cqe, ring: bool)
    ensures HandleCommand(d, command, ring).d.auto.threshold == d.auto.threshold
    ensures HandleCqe(d, cqe, ring).d.auto.threshold == d.auto.threshold
  {
  }

  lemma {:induction false} RunSizes(s: Sys, events: seq<Event>, t: Sys)
    requires IsRun(s, events, t)
    ensures t.n == s.n && t.d.auto.threshold == s.d.auto.threshold
    decreases |events|
  {
    hide Step, Enabled;
    if |events| > 0 {
      StepSizes(s, events[0]);
      RunSizes(Step(s, events[0]), events[1..], t);
    }
  }

  /** A stop holds exactly when auto-resume is off or its threshold exceeds the buffer count. */
  lemma StopHoldsIff(threshold: nat, n: nat)
    ensures StopHolds(threshold, n) <==> threshold == 0 || threshold > n
  {
    hide Inv, IsRun;
    var s := Spawned(threshold, n);
    if threshold == 0 || threshold > n {
      forall t | Reaches(s, t) && t.stopped
        ensures !t.readLive && NoReads(t.cq + t.overflow)
      {
        var events :| IsRun(s, events, t);
        StartsWell(threshold, n);
        RunKeeps(s, events, t);
        RunSizes(s, events, t);
        assert IsRun(t, [], t) by { ReachesItself(t); }
        StopIsQuiet(t, [], t);
      }
    } else {
      var t := StoppedYetReading(threshold, n);
    }
  }

  lemma ReachesItself(t: Sys)
    ensures IsRun(t, [], t)
  {
  }
}

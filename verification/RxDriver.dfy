/** The RX driver thread of `src/core/rx.rs`: commands, completions and the auto-resume counter. */
module RxDriver {
  import opened Common
  import opened RxShared

  const ENOBUFS := 105
  const ENOENT := 2

  datatype Command = Start(ack: nat) | Stop(ack: nat) | Shutdown | AutoResumeCheck

  /** A completion. A read completion carries the serial number of the packet, whether it names a
      usable buffer (`accepted`: an id is present and the packet is longer than its header), and
      the MORE flag. */
  datatype Cqe = ReadCqe(packet: nat, res: int, accepted: bool, more: bool) | CancelCqe(res: int)

  // ----- RxAutoResume -----

  datatype Auto = Auto(threshold: nat, pending: bool, recycled: nat, wake: bool)

  function Disarm(a: Auto): Auto { a.(pending := false, recycled := 0, wake := false) }

  function ArmEnobufs(a: Auto): Auto {
    if a.threshold == 0 then Disarm(a) else a.(recycled := 0, wake := false, pending := true)
  }

  /** Also says whether an AutoResumeCheck is sent. */
  function NoteRecycled(a: Auto): (Auto, bool) {
    if a.threshold == 0 || !a.pending then (a, false)
    else
      var b := a.(recycled := a.recycled + 1);
      if b.recycled < a.threshold then (b, false)
      else if b.wake then (b, false)
      else (b.(wake := true), true)
  }

  // ----- driver state -----

  datatype Ack = StartAck(id: nat, ok: bool) | StopAck(id: nat, ok: bool)

  /** `submitted` and `cancels` count the requests handed to the ring, `acks` the acknowledgements. */
  datatype Driver = Driver(
    running: bool, readActive: bool, stopAck: Option<nat>, shutdownRequested: bool,
    auto: Auto, shared: Shared, submitted: nat, cancels: nat, acks: seq<Ack>)

  /** A handler's result: `err` is an error that travels up to `fail`. */
  datatype Outcome = Outcome(d: Driver, err: bool)

  function SubmitRead(d: Driver): Driver { d.(readActive := true, submitted := d.submitted + 1) }

  function StartRx(d: Driver, ring: bool): Outcome {
    var d1 := d.(auto := Disarm(d.auto), running := true);
    if !d1.readActive && !ring then Outcome(d1.(running := false), true)
    else
      var d2 := if !d1.readActive then SubmitRead(d1) else d1;
      Outcome(d2.(shared := SetRunning(d2.shared)), false)
  }

  function BeginStop(d: Driver, ack: nat, ring: bool): Outcome {
    var d1 := d.(auto := Disarm(d.auto), running := false);
    if !d1.readActive then Outcome(d1.(acks := d1.acks + [StopAck(ack, true)]), false)
    else if ring then Outcome(d1.(stopAck := Some(ack), cancels := d1.cancels + 1), false)
    else Outcome(d1.(stopAck := Some(ack)), true)
  }

  function TryAutoResume(d: Driver, ring: bool): Outcome {
    if !d.auto.pending then Outcome(d, false)
    else
      var d1 := d.(running := true);
      if !d1.readActive && !ring then Outcome(d1, true)
      else
        var d2 := if !d1.readActive then SubmitRead(d1) else d1;
        Outcome(d2.(auto := Disarm(d2.auto), shared := SetRunning(d2.shared)), false)
  }

  function Fail(d: Driver): Driver {
    d.(running := false, readActive := false, auto := Disarm(d.auto), shared := SetFaulted(d.shared), stopAck := None,
       acks := d.acks + (if d.stopAck.Some? then [StopAck(d.stopAck.value, false)] else []))
  }

  function HandleCommand(d: Driver, c: Command, ring: bool): Outcome {
    match c
    case Start(ack) =>
      var o := StartRx(d, ring);
      Outcome(o.d.(acks := o.d.acks + [StartAck(ack, !o.err)]), false)
    case Stop(ack) =>
      var o := BeginStop(d, ack, ring);
      Outcome(if o.err then Fail(o.d) else o.d, false)
    case Shutdown =>
      var d1 := d.(auto := Disarm(d.auto), shutdownRequested := true, running := false);
      if !d1.readActive then Outcome(d1, false)
      else if ring then Outcome(d1.(cancels := d1.cancels + 1), false)
      else Outcome(d1, true)
    case AutoResumeCheck => TryAutoResume(d, ring)
  }

  function EnterEnobufsFault(d: Driver): Driver {
    d.(running := false, auto := ArmEnobufs(d.auto), shared := SetFaulted(d.shared))
  }

  function SendStopAck(d: Driver): Driver {
    if d.stopAck.Some? then
      d.(stopAck := None, acks := d.acks + [StopAck(d.stopAck.value, true)], shared := SetStopped(d.shared))
    else d
  }

  /** The part of the handler after the result was looked at: the end of a multishot read. */
  function EndOfRead(d: Driver, more: bool, ring: bool): Outcome {
    if more then Outcome(d, false)
    else
      var d1 := d.(readActive := false);
      if d1.running then (if ring then Outcome(SubmitRead(d1), false) else Outcome(d1, true))
      else Outcome(SendStopAck(d1), false)
  }

  function HandleReadCqe(d: Driver, c: Cqe, ring: bool): Outcome
    requires c.ReadCqe?
  {
    if c.res >= 0 then
      if !c.accepted then Outcome(d, true)
      else EndOfRead(d.(shared := PushPacket(d.shared, c.packet)), c.more, ring)
    else if c.res == -ENOBUFS then EndOfRead(EnterEnobufsFault(d), c.more, ring)
    else if c.res != -ECANCELED || d.running then Outcome(d, true)
    else EndOfRead(d, c.more, ring)
  }

  function HandleCancelCqe(d: Driver, res: int): Outcome {
    if res < 0 && res != -ENOENT then Outcome(d, true)
    else if !d.readActive then Outcome(SendStopAck(d), false)
    else Outcome(d, false)
  }

  function HandleCqe(d: Driver, c: Cqe, ring: bool): Outcome {
    if c.ReadCqe? then HandleReadCqe(d, c, ring) else HandleCancelCqe(d, c.res)
  }

  /** What the loop makes of a handler's result. */
  function Settle(o: Outcome): Driver { if o.err then Fail(o.d) else o.d }

  function Initial(threshold: nat): Driver {
    Driver(false, false, None, false, Auto(threshold, false, 0, false), EMPTY, 0, 0, [])
  }

  // ----- the control invariant, failures included -----

  /** A running driver has a read, and so has one that owes an acknowledgement. */
  ghost predicate LoopInv(d: Driver) {
    (d.running ==> d.readActive) && (d.stopAck.Some? ==> d.readActive)
  }

  lemma CommandKeepsLoopInv(d: Driver, c: Command, ring: bool)
    requires LoopInv(d)
    ensures LoopInv(Settle(HandleCommand(d, c, ring)))
  {
  }

  lemma CqeKeepsLoopInv(d: Driver, c: Cqe, ring: bool)
    requires LoopInv(d)
    ensures LoopInv(Settle(HandleCqe(d, c, ring)))
  {
  }

  /** What can happen to the driver: a command or a completion with either outcome of the ring, a
      failing system call, a buffer recycled by another thread, a packet taken by the consumer. */
  datatype Input = Cmd(command: Command, ring: bool) | Done(cqe: Cqe, ring: bool) | Broken | Recycled | Taken

  function React(d: Driver, i: Input): Driver {
    match i
    case Cmd(c, ring) => Settle(HandleCommand(d, c, ring))
    case Done(c, ring) => Settle(HandleCqe(d, c, ring))
    case Broken => Fail(d)
    case Recycled => d.(auto := NoteRecycled(d.auto).0)
    case Taken => d.(shared := TryRecv(d.shared).0)
  }

  function ReactAll(d: Driver, inputs: seq<Input>): Driver
    decreases |inputs|
  {
    if |inputs| == 0 then d else React(ReactAll(d, inputs[..|inputs| - 1]), inputs[|inputs| - 1])
  }

  lemma ReactAppend(d: Driver, inputs: seq<Input>, i: Input)
    ensures ReactAll(d, inputs + [i]) == React(ReactAll(d, inputs), i)
  {
    assert (inputs + [i])[..|inputs|] == inputs;
  }

  /** In every run, failures included: a driver that has no read (and so parks on the command channel)
      is neither running nor owing an acknowledgement. */
  lemma {:induction false} NeverParksOwingAck(d: Driver, inputs: seq<Input>)
    requires LoopInv(d)
    ensures LoopInv(ReactAll(d, inputs))
    ensures var t := ReactAll(d, inputs); !t.readActive ==> !t.running && t.stopAck.None?
    decreases |inputs|
  {
    if |inputs| > 0 {
      var before := inputs[..|inputs| - 1];
      NeverParksOwingAck(d, before);
      match inputs[|inputs| - 1] {
        case Cmd(c, ring) => CommandKeepsLoopInv(ReactAll(d, before), c, ring);
        case Done(c, ring) => CqeKeepsLoopInv(ReactAll(d, before), c, ring);
        case _ =>
      }
    }
  }

  /** In no run does a cancel completion find an acknowledgement to send: the end of the read, which
      comes with its own completion, has always sent it. */
  lemma CancelNeverAcks(d: Driver, inputs: seq<Input>, res: int)
    requires LoopInv(d)
    ensures var t := ReactAll(d, inputs); HandleCancelCqe(t, res).d == t
  {
    NeverParksOwingAck(d, inputs);
  }

  /** The driver is asked to shut down exactly if it took a Shutdown command, whatever happens else. */
  lemma {:induction false} ShutdownRemembered(d: Driver, inputs: seq<Input>)
    ensures ReactAll(d, inputs).shutdownRequested
            <==> d.shutdownRequested || exists i :: 0 <= i < |inputs| && inputs[i].Cmd? && inputs[i].command.Shutdown?
    decreases |inputs|
  {
    if |inputs| > 0 {
      var n := |inputs| - 1;
      ShutdownRemembered(d, inputs[..n]);
      ShutdownStep(ReactAll(d, inputs[..n]), inputs[n]);
      assert forall i :: 0 <= i < n ==> inputs[i] == inputs[..n][i];
    }
  }

  lemma ShutdownStep(d: Driver, i: Input)
    ensures React(d, i).shutdownRequested <==> d.shutdownRequested || (i.Cmd? && i.command.Shutdown?)
  {
  }

  // ----- what the handlers refuse, and who is answered -----

  /** With every call succeeding, the completions that reach `fail` are: a packet without a usable
      buffer, a read error other than running out of buffers or being cancelled while not running, and
      a failed cancellation that was not too late. */
  lemma RefusedExactly(d: Driver, c: Cqe)
    ensures HandleCqe(d, c, true).err <==>
              match c
              case ReadCqe(_, res, accepted, _) =>
                if res >= 0 then !accepted else res != -ENOBUFS && (res == -ECANCELED ==> d.running)
              case CancelCqe(res) => res < 0 && res != -ENOENT
  {
  }

  /** With every call succeeding no command fails. */
  lemma CommandsSucceed(d: Driver, c: Command)
    ensures !HandleCommand(d, c, true).err
    ensures c.Stop? ==> !BeginStop(d, c.ack, true).err
  {
  }

  function StartAcks(acks: seq<Ack>): seq<nat>
    decreases |acks|
  {
    if |acks| == 0 then []
    else
      var last := acks[|acks| - 1];
      StartAcks(acks[..|acks| - 1]) + (if last.StartAck? then [last.id] else [])
  }

  function StopAcks(acks: seq<Ack>): seq<nat>
    decreases |acks|
  {
    if |acks| == 0 then []
    else
      var last := acks[|acks| - 1];
      StopAcks(acks[..|acks| - 1]) + (if last.StopAck? then [last.id] else [])
  }

  lemma AcksAppend(acks: seq<Ack>, a: Ack)
    ensures StartAcks(acks + [a]) == StartAcks(acks) + (if a.StartAck? then [a.id] else [])
    ensures StopAcks(acks + [a]) == StopAcks(acks) + (if a.StopAck? then [a.id] else [])
  {
    assert (acks + [a])[..|acks|] == acks;
  }

  /** The Start commands taken, in order. */
  function StartsTaken(inputs: seq<Input>): seq<nat>
    decreases |inputs|
  {
    if |inputs| == 0 then []
    else
      var last := inputs[|inputs| - 1];
      StartsTaken(inputs[..|inputs| - 1]) + (if last.Cmd? && last.command.Start? then [last.command.ack] else [])
  }

  /** The Stop commands taken. */
  function StopsTaken(inputs: seq<Input>): multiset<nat>
    decreases |inputs|
  {
    if |inputs| == 0 then multiset{}
    else
      var last := inputs[|inputs| - 1];
      StopsTaken(inputs[..|inputs| - 1]) + (if last.Cmd? && last.command.Stop? then multiset{last.command.ack} else multiset{})
  }

  /** The Stop commands whose acknowledgement was given up because another Stop took its place. */
  function Replaced(d: Driver, inputs: seq<Input>): multiset<nat>
    decreases |inputs|
  {
    if |inputs| == 0 then multiset{}
    else
      var before := ReactAll(d, inputs[..|inputs| - 1]);
      Replaced(d, inputs[..|inputs| - 1]) + ReplacedBy(before, inputs[|inputs| - 1])
  }

  function ReplacedBy(d: Driver, i: Input): multiset<nat> {
    if i.Cmd? && i.command.Stop? && d.readActive then OwedBy(d) else multiset{}
  }

  function OwedBy(d: Driver): multiset<nat> {
    if d.stopAck.Some? then multiset{d.stopAck.value} else multiset{}
  }

  ghost predicate Accounted(d: Driver, i: Input, t: Driver) {
    && StartAcks(t.acks) == StartAcks(d.acks) + (if i.Cmd? && i.command.Start? then [i.command.ack] else [])
    && multiset(StopAcks(t.acks)) + OwedBy(t) + ReplacedBy(d, i)
       == multiset(StopAcks(d.acks)) + OwedBy(d)
          + (if i.Cmd? && i.command.Stop? then multiset{i.command.ack} else multiset{})
  }

  lemma StartAccounts(d: Driver, id: nat, ring: bool)
    ensures Accounted(d, Cmd(Start(id), ring), React(d, Cmd(Start(id), ring)))
  {
    hide StartAcks, StopAcks;
    AcksAppend(d.acks, StartAck(id, !StartRx(d, ring).err));
  }

  lemma StopAccounts(d: Driver, id: nat, ring: bool)
    requires LoopInv(d)
    ensures Accounted(d, Cmd(Stop(id), ring), React(d, Cmd(Stop(id), ring)))
  {
    hide StartAcks, StopAcks;
    AcksAppend(d.acks, StopAck(id, !d.readActive));
    assert React(d, Cmd(Stop(id), ring)).acks
           == d.acks + (if d.readActive && ring then [] else [StopAck(id, !d.readActive)]);
  }

  /** A step that is neither Start nor Stop. */
  lemma PlainAccounts(d: Driver, i: Input, t: Driver)
    requires !(i.Cmd? && (i.command.Start? || i.command.Stop?))
    requires StartAcks(t.acks) == StartAcks(d.acks)
    requires multiset(StopAcks(t.acks)) + OwedBy(t) == multiset(StopAcks(d.acks)) + OwedBy(d)
    ensures Accounted(d, i, t)
  {
    hide StartAcks, StopAcks, OwedBy;
  }

  lemma OtherAccounts(d: Driver, c: Command, ring: bool)
    requires c.Shutdown? || c.AutoResumeCheck?
    ensures Accounted(d, Cmd(c, ring), React(d, Cmd(c, ring)))
  {
    hide StartAcks, StopAcks, Accounted;
    FailingAccounts(HandleCommand(d, c, ring), d);
    PlainAccounts(d, Cmd(c, ring), React(d, Cmd(c, ring)));
  }

  lemma StepAccounts(d: Driver, i: Input)
    requires LoopInv(d)
    ensures Accounted(d, i, React(d, i))
  {
    hide StartAcks, StopAcks, HandleCommand, HandleCqe, Accounted, OwedBy;
    match i {
      case Cmd(c, ring) =>
        match c {
          case Start(id) => StartAccounts(d, id, ring);
          case Stop(id) => StopAccounts(d, id, ring);
          case _ => OtherAccounts(d, c, ring);
        }
      case Done(c, ring) =>
        CqeAccounts(d, c, ring);
        PlainAccounts(d, i, React(d, i));
      case Broken =>
        FailingAccounts(Outcome(d, true), d);
        PlainAccounts(d, i, React(d, i));
      case _ => QuietAccounts(d, i);
    }
  }

  lemma QuietAccounts(d: Driver, i: Input)
    requires i.Recycled? || i.Taken?
    ensures Accounted(d, i, React(d, i))
  {
    hide StartAcks, StopAcks;
    PlainAccounts(d, i, React(d, i));
  }

  /** An error on its way up answers the owed acknowledgement, if nothing else was sent. */
  lemma FailingAccounts(o: Outcome, d: Driver)
    requires o.d.acks == d.acks && o.d.stopAck == d.stopAck
    ensures var t := Settle(o); StartAcks(t.acks) == StartAcks(d.acks)
    ensures var t := Settle(o); multiset(StopAcks(t.acks)) + OwedBy(t) == multiset(StopAcks(d.acks)) + OwedBy(d)
  {
    hide StartAcks, StopAcks;
    if o.err && d.stopAck.Some? {
      AcksAppend(d.acks, StopAck(d.stopAck.value, false));
    } else {
      assert Settle(o).acks == d.acks;
    }
  }

  /** A completion sends at most the owed acknowledgement. */
  lemma CqeAcks(d: Driver, c: Cqe, ring: bool)
    ensures var o := HandleCqe(d, c, ring);
            || (o.d.acks == d.acks && o.d.stopAck == d.stopAck)
            || (!o.err && d.stopAck.Some? && o.d.acks == d.acks + [StopAck(d.stopAck.value, true)] && o.d.stopAck.None?)
  {
  }

  lemma CqeAccounts(d: Driver, c: Cqe, ring: bool)
    ensures var t := Settle(HandleCqe(d, c, ring)); StartAcks(t.acks) == StartAcks(d.acks)
    ensures var t := Settle(HandleCqe(d, c, ring));
            multiset(StopAcks(t.acks)) + OwedBy(t) == multiset(StopAcks(d.acks)) + OwedBy(d)
  {
    CqeAcks(d, c, ring);
    hide StartAcks, StopAcks, HandleCqe;
    var o := HandleCqe(d, c, ring);
    if o.d.acks == d.acks && o.d.stopAck == d.stopAck {
      FailingAccounts(o, d);
    } else {
      AcksAppend(d.acks, StopAck(d.stopAck.value, true));
    }
  }

  lemma NobodyAnswered()
    ensures StartAcks([]) == [] && StopAcks([]) == []
  {
  }

  /** Over every run, failures included: each Start is answered once, in order, and each Stop is
      answered once, still owed, or was replaced by a later Stop. */
  lemma {:induction false} EveryCallAnswered(threshold: nat, inputs: seq<Input>)
    ensures var t := ReactAll(Initial(threshold), inputs);
            && StartAcks(t.acks) == StartsTaken(inputs)
            && multiset(StopAcks(t.acks)) + OwedBy(t) + Replaced(Initial(threshold), inputs) == StopsTaken(inputs)
    decreases |inputs|
  {
    hide React, StartAcks, StopAcks;
    if |inputs| == 0 {
      NobodyAnswered();
    } else {
      var before := inputs[..|inputs| - 1];
      EveryCallAnswered(threshold, before);
      NeverParksOwingAck(Initial(threshold), before);
      var d, i, t := ReactAll(Initial(threshold), before), inputs[|inputs| - 1], ReactAll(Initial(threshold), inputs);
      StepAccounts(d, i);
      hide ReactAll;
      Combine(multiset(StopAcks(d.acks)), OwedBy(d), Replaced(Initial(threshold), before), StopsTaken(before),
              multiset(StopAcks(t.acks)), OwedBy(t), ReplacedBy(d, i),
              if i.Cmd? && i.command.Stop? then multiset{i.command.ack} else multiset{});
    }
  }

  lemma Combine(sent: multiset<nat>, owed: multiset<nat>, replaced: multiset<nat>, taken: multiset<nat>,
                sent': multiset<nat>, owed': multiset<nat>, more: multiset<nat>, added: multiset<nat>)
    requires sent + owed + replaced == taken && sent' + owed' + more == sent + owed + added
    ensures sent' + owed' + (replaced + more) == taken + added
  {
    assert sent' + owed' + (replaced + more) == sent' + owed' + more + replaced;
    assert sent + owed + added + replaced == sent + owed + replaced + added;
  }

  /** A failure is visible to everybody who waits: the queue is faulted, auto-resume is off, and an owed
      acknowledgement says so. */
  lemma FailureShows(d: Driver)
    ensures Fail(d).shared.state == Faulted && Fail(d).shared.waiter.None? && !Fail(d).auto.pending
    ensures d.stopAck.Some? ==> Fail(d).acks == d.acks + [StopAck(d.stopAck.value, false)]
  {
  }

  /** A stop or a shutdown that finds a read asks the kernel to cancel it, once. */
  lemma StopCancels(d: Driver, c: Command)
    requires c.Stop? || c.Shutdown?
    ensures var t := HandleCommand(d, c, true).d;
            !t.running && t.cancels == d.cancels + (if d.readActive then 1 else 0) && t.readActive == d.readActive
  {
  }

  /** The completions among the inputs, in order. */
  function Handled(inputs: seq<Input>): seq<Cqe>
    decreases |inputs|
  {
    if |inputs| == 0 then []
    else
      var last := inputs[|inputs| - 1];
      Handled(inputs[..|inputs| - 1]) + (if last.Done? then [last.cqe] else [])
  }

  lemma HandledAppend(inputs: seq<Input>, i: Input)
    ensures Handled(inputs + [i]) == Handled(inputs) + (if i.Done? then [i.cqe] else [])
  {
    assert (inputs + [i])[..|inputs|] == inputs;
  }

  // ----- the code -----

  class RxDriverThread {
    var running: bool
    var readActive: bool
    var stopAck: Option<nat>
    var shutdownRequested: bool
    var auto: Auto
    var shared: Shared
    var submitted: nat
    var cancels: nat
    var acks: seq<Ack>

    /** The command channel, the completion queue and the kernel's overflow list. */
    var commands: seq<Command>
    var cq: seq<Cqe>
    var overflow: seq<Cqe>

    /** Completions posted so far, and what the driver went through. */
    ghost var posted: seq<Cqe>
    ghost var log: seq<Input>
    const threshold: nat
    /** No system call fails, and some sender of the command channel lives. */
    const reliable: bool
    /** Every sender of the command channel is gone. */
    var closed: bool

    ghost function Contents(): Driver
      reads this
    {
      Driver(running, readActive, stopAck, shutdownRequested, auto, shared, submitted, cancels, acks)
    }

    /** The fields are what the handlers make of the inputs so far. */
    ghost predicate Valid()
      reads this
    {
      Contents() == ReactAll(Initial(threshold), log) && (closed ==> !reliable)
    }

    /** Completions handled, then collected, then queued, then in the overflow list are those the
        kernel posted, in its order. */
    ghost predicate Held(collected: seq<Cqe>)
      reads this
    {
      Handled(log) + collected + (cq + overflow) == posted
    }

    ghost predicate InOrder()
      reads this
    {
      Held([])
    }

    constructor (threshold: nat, reliable: bool)
      ensures Valid() && InOrder() && this.threshold == threshold && this.reliable == reliable && log == []
    {
      this.threshold, this.reliable := threshold, reliable;
      running, readActive, stopAck, shutdownRequested := false, false, None, false;
      auto, shared, submitted, cancels, acks := Auto(threshold, false, 0, false), EMPTY, 0, 0, [];
      commands, cq, overflow, posted, log, closed := [], [], [], [], [], false;
    }

    method SubmitMultishotRead(ring: bool) returns (ok: bool)
      modifies this`submitted, this`readActive
      ensures ok == ring && Contents() == if ring then SubmitRead(old(Contents())) else old(Contents())
    {
      if !ring {
        return false;
      }
      submitted := submitted + 1;
      readActive := true;
      return true;
    }

    method StartReading(ring: bool) returns (ok: bool)
      modifies this`auto, this`running, this`submitted, this`readActive, this`shared
      ensures Outcome(Contents(), !ok) == StartRx(old(Contents()), ring)
    {
      auto := Disarm(auto);
      running := true;
      if !readActive {
        ok := SubmitMultishotRead(ring);
        if !ok {
          running := false;
          return;
        }
      }
      shared := SetRunning(shared);
      ok := true;
    }

    method BeginStopping(ack: nat, ring: bool) returns (ok: bool)
      modifies this`auto, this`running, this`stopAck, this`cancels, this`acks
      ensures Outcome(Contents(), !ok) == BeginStop(old(Contents()), ack, ring)
    {
      auto := Disarm(auto);
      running := false;
      if !readActive {
        acks := acks + [StopAck(ack, true)];
        return true;
      }
      stopAck := Some(ack);
      if ring {
        cancels := cancels + 1;
      }
      ok := ring;
    }

    method AutoResume(ring: bool) returns (ok: bool)
      modifies this`auto, this`running, this`submitted, this`readActive, this`shared
      ensures Outcome(Contents(), !ok) == TryAutoResume(old(Contents()), ring)
    {
      if !auto.pending {
        return true;
      }
      running := true;
      if !readActive {
        ok := SubmitMultishotRead(ring);
        if !ok {
          return;
        }
      }
      auto := Disarm(auto);
      shared := SetRunning(shared);
      ok := true;
    }

    method FailDriver()
      modifies this`running, this`readActive, this`auto, this`shared, this`acks, this`stopAck
      ensures Contents() == Fail(old(Contents()))
    {
      running := false;
      readActive := false;
      auto := Disarm(auto);
      shared := SetFaulted(shared);
      if stopAck.Some? {
        acks := acks + [StopAck(stopAck.value, false)];
        stopAck := None;
      }
    }

    method Obey(c: Command, ring: bool) returns (ok: bool)
      modifies this`running, this`readActive, this`stopAck, this`shutdownRequested, this`auto, this`shared,
               this`submitted, this`cancels, this`acks
      ensures Outcome(Contents(), !ok) == HandleCommand(old(Contents()), c, ring)
    {
      ok := true;
      match c {
        case Start(ack) =>
          var started := StartReading(ring);
          acks := acks + [StartAck(ack, started)];
        case Stop(ack) =>
          var stopped := BeginStopping(ack, ring);
          if !stopped {
            FailDriver();
          }
        case Shutdown =>
          auto := Disarm(auto);
          shutdownRequested := true;
          running := false;
          if readActive {
            ok := ring;
            if ring {
              cancels := cancels + 1;
            }
          }
        case AutoResumeCheck => ok := AutoResume(ring);
      }
    }

    method ReadDone(c: Cqe, ring: bool) returns (ok: bool)
      requires c.ReadCqe?
      modifies this`running, this`readActive, this`stopAck, this`auto, this`shared, this`submitted, this`acks
      ensures Outcome(Contents(), !ok) == HandleReadCqe(old(Contents()), c, ring)
    {
      if c.res >= 0 {
        if !c.accepted {
          return false;
        }
        shared := PushPacket(shared, c.packet);
      } else if c.res == -ENOBUFS {
        running := false;
        auto := ArmEnobufs(auto);
        shared := SetFaulted(shared);
      } else if c.res != -ECANCELED || running {
        return false;
      }
      ok := true;
      if !c.more {
        readActive := false;
        if running {
          ok := SubmitMultishotRead(ring);
        } else if stopAck.Some? {
          acks := acks + [StopAck(stopAck.value, true)];
          stopAck := None;
          shared := SetStopped(shared);
        }
      }
    }

    method CancelDone(res: int) returns (ok: bool)
      modifies this`stopAck, this`shared, this`acks
      ensures Outcome(Contents(), !ok) == HandleCancelCqe(old(Contents()), res)
    {
      if res < 0 && res != -ENOENT {
        return false;
      }
      if !readActive && stopAck.Some? {
        acks := acks + [StopAck(stopAck.value, true)];
        stopAck := None;
        shared := SetStopped(shared);
      }
      return true;
    }

    // ----- the rest of the world, at most `budget` actions -----

    /** The kernel posts a completion: into the queue if it has room and nothing overflowed yet. */
    method Post(c: Cqe)
      modifies this`cq, this`overflow, this`posted
      ensures posted == old(posted) + [c] && cq + overflow == old(cq + overflow) + [c]
      ensures old(overflow) <= overflow && |overflow| <= old(|overflow|) + 1
    {
      var room: bool := *;
      if room && overflow == [] {
        cq := cq + [c];
      } else {
        overflow := overflow + [c];
      }
      posted := posted + [c];
    }

    /** Another thread gives a buffer back. */
    method Recycle()
      requires Valid()
      modifies this`auto, this`commands, this`log
      ensures Valid() && Handled(log) == Handled(old(log)) && old(log) <= log
      ensures commands == old(commands) + (if NoteRecycled(old(auto)).1 then [AutoResumeCheck] else [])
    {
      ReactAppend(Initial(threshold), log, Recycled);
      HandledAppend(log, Recycled);
      log := log + [Recycled];
      var (counted, send) := NoteRecycled(auto);
      auto := counted;
      if send {
        commands := commands + [AutoResumeCheck];
      }
    }

    /** The consumer takes a packet. */
    method Take()
      requires Valid()
      modifies this`shared, this`log
      ensures Valid() && Handled(log) == Handled(old(log)) && old(log) <= log
    {
      ReactAppend(Initial(threshold), log, Taken);
      HandledAppend(log, Taken);
      log := log + [Taken];
      shared := TryRecv(shared).0;
    }

    /** Anything the others may do between two steps of the driver. */
    method World(budget: nat, ghost collected: seq<Cqe>) returns (left: nat)
      requires Valid()
      modifies this`auto, this`shared, this`commands, this`cq, this`overflow, this`posted, this`log, this`closed
      ensures old(closed) ==> closed
      ensures Valid() && Handled(log) == Handled(old(log)) && (old(Held(collected)) ==> Held(collected))
      ensures old(posted) <= posted && old(log) <= log
      ensures old(overflow) <= overflow && left + |overflow| <= budget + old(|overflow|)
      ensures left <= budget && left + |commands| <= budget + old(|commands|)
    {
      hide ReactAll, Handled, Initial;
      left := budget;
      var stop: bool := *;
      while left > 0 && !stop
        modifies this`auto, this`shared, this`commands, this`cq, this`overflow, this`posted, this`log, this`closed
        invariant old(closed) ==> closed
        invariant Valid() && Handled(log) == Handled(old(log)) && (old(Held(collected)) ==> Held(collected))
        invariant old(posted) <= posted && old(log) <= log
        invariant old(overflow) <= overflow && left + |overflow| <= budget + old(|overflow|)
        invariant left <= budget && left + |commands| <= budget + old(|commands|)
        decreases left
      {
        var kind: int := *;
        if kind == 0 && !closed {
          var c: Command := *;
          commands := commands + [c];
        } else if kind == 4 {
          closed := !reliable;
        } else if kind == 1 {
          var c: Cqe := *;
          Post(c);
        } else if kind == 2 {
          Recycle();
        } else {
          Take();
        }
        left := left - 1;
        stop := *;
      }
    }

    // ----- the loop -----

    /** The last input was a completion that the handlers refuse although every call succeeds. */
    ghost predicate Refused()
      reads this
    {
      && |log| > 0 && log[|log| - 1].Done?
      && HandleCqe(ReactAll(Initial(threshold), log[..|log| - 1]), log[|log| - 1].cqe, true).err
    }

    /** An error is on its way up: `fail` makes the state what the inputs say. If no system call
        fails, it comes from a completion. */
    ghost predicate Failing()
      reads this
    {
      Fail(Contents()) == ReactAll(Initial(threshold), log) && (reliable ==> Refused()) && (closed ==> !reliable)
    }

    /** Handling the next command of the channel. */
    method ObeyNext() returns (ok: bool)
      requires Valid() && commands != []
      modifies this`running, this`readActive, this`stopAck, this`shutdownRequested, this`auto, this`shared,
               this`submitted, this`cancels, this`acks, this`commands, this`log
      ensures reliable ==> ok
      ensures if ok then Valid() else Failing()
      ensures commands == old(commands)[1..] && Handled(log) == Handled(old(log)) && old(log) <= log
    {
      var ring: bool := *;
      ring := ring || reliable;
      var c := commands[0];
      commands := commands[1..];
      ReactAppend(Initial(threshold), log, Cmd(c, ring));
      HandledAppend(log, Cmd(c, ring));
      CommandsSucceed(Contents(), c);
      hide ReactAll, Handled, HandleCommand, HandleCqe, Initial;
      log := log + [Cmd(c, ring)];
      ok := Obey(c, ring);
    }

    /** Handling one completion taken from the queue. */
    method Reap(c: Cqe) returns (ok: bool)
      requires Valid()
      modifies this`running, this`readActive, this`stopAck, this`auto, this`shared, this`submitted, this`acks, this`log
      ensures if ok then Valid() else Failing()
      ensures Handled(log) == Handled(old(log)) + [c] && old(log) <= log
    {
      var ring: bool := *;
      ring := ring || reliable;
      ReactAppend(Initial(threshold), log, Done(c, ring));
      HandledAppend(log, Done(c, ring));
      hide ReactAll, Handled, Initial, HandleReadCqe, HandleCancelCqe, HandleCommand, Fail;
      log := log + [Done(c, ring)];
      assert log[..|log| - 1] == old(log);
      if c.ReadCqe? {
        ok := ReadDone(c, ring);
      } else {
        ok := CancelDone(c.res);
      }
    }

    /** A system call fails: nothing changes before `fail`. */
    ghost method Break()
      requires Valid() && !reliable
      modifies this`log
      ensures Failing() && Handled(log) == Handled(old(log)) && old(log) <= log
    {
      ReactAppend(Initial(threshold), log, Broken);
      HandledAppend(log, Broken);
      log := log + [Broken];
    }

    /** What has been handled, the refused completion included, is what the kernel posted first. */
    ghost predicate Prefix()
      reads this
    {
      Handled(log) <= posted
    }

    /** `drain_commands` returns normally only with the channel empty and some sender alive. */
    method DrainCommands(budget: nat) returns (ok: bool, left: nat)
      requires Valid()
      modifies this
      ensures reliable ==> ok
      ensures (old(InOrder()) ==> InOrder()) && if ok then Valid() && commands == [] && !closed else Failing()
      ensures old(posted) <= posted && old(overflow) <= overflow && old(log) <= log
      ensures Handled(log) == Handled(old(log))
      ensures left <= budget && left + |overflow| <= budget + old(|overflow|)
    {
      hide ReactAll, Handled, Initial, HandleCqe, Fail;
      left := World(budget, []);
      while commands != []
        invariant Valid() && (old(InOrder()) ==> InOrder())
        invariant old(posted) <= posted && old(overflow) <= overflow && old(log) <= log
        invariant Handled(log) == Handled(old(log))
        invariant left <= budget && left + |overflow| <= budget + old(|overflow|)
        decreases left + |commands|
      {
        ok := ObeyNext();
        if !ok {
          return;
        }
        left := World(left, []);
      }
      ok := !closed;
      if closed {
        Break();
      }
    }

    /** The next of the collected completions, and what the others do meanwhile. */
    method ReapNext(entries: seq<Cqe>, budget: nat) returns (ok: bool, left: nat)
      requires Valid() && entries != []
      modifies this`running, this`readActive, this`stopAck, this`auto, this`shared, this`submitted, this`acks,
               this`commands, this`cq, this`overflow, this`posted, this`log, this`closed
      ensures if ok then Valid() else Failing()
      ensures old(Held(entries)) ==> Held(entries[1..])
      ensures Handled(log) == Handled(old(log)) + [entries[0]]
      ensures old(posted) <= posted && old(overflow) <= overflow && old(log) <= log
      ensures left <= budget && left + |overflow| <= budget + old(|overflow|)
    {
      left := budget;
      ok := Reap(entries[0]);
      assert entries == [entries[0]] + entries[1..];
      assert old(Held(entries)) ==> Held(entries[1..]);
      if ok {
        left := World(left, entries[1..]);
      }
    }

    /** The completions collected from the queue are all handled, in order. */
    method ReapAll(budget: nat) returns (ok: bool, left: nat)
      requires Valid()
      modifies this
      ensures if ok then Valid() && (old(InOrder()) ==> InOrder()) else Failing()
      ensures ok ==> Handled(log) == Handled(old(log)) + old(cq)
      ensures old(InOrder()) ==> Prefix()
      ensures old(posted) <= posted && old(overflow) <= overflow && old(log) <= log
      ensures left <= budget && left + |overflow| <= budget + old(|overflow|)
    {
      hide ReactAll, Handled, Initial, HandleCqe, Fail;
      var entries := cq;
      cq := [];
      left := budget;
      ghost var start, first := old(InOrder()), Handled(log);
      assert start ==> Held(entries);
      while entries != []
        invariant Valid() && (start ==> Held(entries))
        invariant old(posted) <= posted && old(overflow) <= overflow && old(log) <= log
        invariant Handled(log) + entries == first + old(cq)
        invariant left <= budget && left + |overflow| <= budget + old(|overflow|)
        decreases |entries|
      {
        ghost var before := Handled(log);
        ok, left := ReapNext(entries, left);
        if !ok {
          return;
        }
        assert before + entries == Handled(log) + entries[1..];
        entries := entries[1..];
      }
      ok := true;
    }

    /** Entering the kernel flushes the overflow list; the queue was empty, so something moves. */
    method Flush()
      requires overflow != []
      modifies this`cq, this`overflow
      ensures (old(InOrder()) ==> InOrder()) && |overflow| < old(|overflow|)
    {
      var flushed: int := *;
      flushed := if 0 < flushed <= |overflow| then flushed else |overflow|;
      assert overflow == overflow[..flushed] + overflow[flushed..];
      cq, overflow := cq + overflow[..flushed], overflow[flushed..];
      assert cq + overflow == old(cq + overflow);
    }

    /**
     `process_cqes`: a normal return leaves the overflow list empty, and everything that was queued
     or overflowed has been handled in the kernel's order.
     */
    method ProcessCqes(budget: nat) returns (ok: bool, left: nat)
      requires Valid()
      modifies this
      ensures if ok then Valid() && overflow == [] else Failing()
      ensures ok && old(InOrder()) ==> InOrder() && old(posted) <= Handled(log)
      ensures (old(InOrder()) ==> Prefix()) && old(log) <= log
      ensures left <= budget
    {
      hide ReactAll, Handled, Initial, HandleCqe, Fail;
      left := budget;
      ghost var start := old(InOrder());
      while true
        invariant Valid() && (start ==> InOrder()) && old(posted) <= posted && old(log) <= log && left <= budget
        decreases left + |overflow|
      {
        ghost var known := posted;
        ok, left := ReapAll(left);
        if !ok {
          return;
        }
        if overflow == [] {
          assert start ==> Handled(log) == known;
          return;
        }
        ok, left := DrainCommands(left);
        if !ok {
          return;
        }
        var interrupted: bool, broken: bool := *, *;
        if broken && !reliable {
          Break();
          return false, left;
        }
        if interrupted && left > 0 {
          left := left - 1;
        } else {
          Flush();
        }
      }
    }

    /** `wait_for_activity`: completions first, then whatever the poll reports. */
    method WaitForActivity(budget: nat) returns (ok: bool, left: nat)
      requires Valid()
      modifies this
      ensures if ok then Valid() && (old(InOrder()) ==> InOrder()) else Failing()
      ensures (old(InOrder()) ==> Prefix()) && old(log) <= log
      ensures ok && old(cq + overflow) != [] ==> overflow == [] && (old(InOrder()) ==> old(posted) <= Handled(log))
      ensures left <= budget
    {
      if cq != [] || overflow != [] {
        ok, left := ProcessCqes(budget);
        return;
      }
      left := World(budget, []);
      var broken: bool, commandSignalled: bool, ringSignalled: bool := *, *, *;
      if broken && !reliable {
        Break();
        return false, left;
      }
      if commandSignalled {
        ok, left := DrainCommands(left);
        if !ok {
          return;
        }
      }
      if ringSignalled {
        ok, left := ProcessCqes(left);
        return;
      }
      ok := true;
    }

    /** The second half of a pass: park on the command channel without a read, otherwise wait. Parking
        ends with a command or with the last sender; until then nothing changes here. */
    method ParkOrWait(budget: nat) returns (ended: bool, ok: bool)
      requires Valid()
      modifies this
      ensures if ok then Valid() && (old(InOrder()) ==> InOrder()) else Failing()
      ensures (old(InOrder()) ==> Prefix()) && old(log) <= log
      ensures ended ==> ok && !readActive && !running && closed && commands == []
      ensures ok && old(readActive && cq + overflow != [] && InOrder()) ==> old(posted) <= Handled(log)
    {
      ended := false;
      ok := true;
      var left := budget;
      if !running && !readActive {
        left := World(left, []);
        if commands == [] {
          return closed, true;
        }
        ok := ObeyNext();
      } else {
        ok, left := WaitForActivity(left);
      }
    }

    /** `fail` at the top of the loop. */
    method FailAtTop(ok: bool)
      requires if ok then Valid() else Failing()
      modifies this`running, this`readActive, this`auto, this`shared, this`acks, this`stopAck
      ensures Valid() && LoopInv(Contents()) && (ok ==> Contents() == old(Contents()))
      ensures !ok ==> !readActive && !running
    {
      if !ok {
        FailDriver();
      }
      NeverParksOwingAck(Initial(threshold), log);
    }

    /** One pass of `run`. Whatever fails, the next pass starts with a driver that has a read if it
        runs or owes an acknowledgement; the thread ends with neither. If no system call fails, only a
        refused completion makes a pass fail. The thread ends exactly if `drained`, the driver after
        the commands were taken, was asked to shut down and has no read, or if it parks and every
        sender is gone. */
    method Pass(budget: nat) returns (ended: bool, failed: bool, ghost drained: Driver)
      requires Valid()
      modifies this
      ensures Valid() && LoopInv(Contents()) && (old(InOrder()) && !failed ==> InOrder())
      ensures failed && reliable ==> Refused()
      ensures (old(InOrder()) ==> Prefix()) && old(log) <= log
      ensures ended ==> !readActive && !running && stopAck.None?
      ensures drained.shutdownRequested && !drained.readActive ==> ended && Contents() == drained
      ensures ended ==> (drained.shutdownRequested && !drained.readActive) || (closed && commands == [])
      ensures reliable && ended ==> Contents().shutdownRequested
      ensures !failed && drained.readActive && old(cq + overflow != [] && InOrder()) ==> old(posted) <= Handled(log)
    {
      hide ReactAll, Handled, HandleCqe, Fail;
      var ok, left := DrainCommands(budget);
      FailAtTop(ok);
      failed := !ok;
      NeverParksOwingAck(Initial(threshold), log);
      drained := Contents();
      assert old(InOrder()) && old(cq + overflow) != [] ==> cq + overflow != [] by {
        assert old(InOrder()) ==> |Handled(log)| + |cq + overflow| == |posted|;
      }
      if shutdownRequested && !readActive {
        return true, failed, drained;
      }
      ended, ok := ParkOrWait(left);
      FailAtTop(ok);
      failed := failed || !ok;
      NeverParksOwingAck(Initial(threshold), log);
    }
  }
}

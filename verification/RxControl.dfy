/**
 `RxController` of `src/core/rx.rs` above the receive path: `start` and `stop` look at the state
 first and send a command only if they have to. One controller exists, and both calls borrow it
 exclusively.
 */
module RxControl {
  import opened Common
  import opened RxShared
  import opened RxDriver
  import S = RxSystem

  datatype Phase = Free | Starting(id: nat) | Stopping(id: nat)

  /** `calls` numbers the commands sent. `stopReturned`: `stop` returned Ok, and `start` has not been
      called since. */
  datatype Ctl = Ctl(s: S.Sys, phase: Phase, calls: nat, stopReturned: bool)

  function Spawned(threshold: nat, n: nat): Ctl { Ctl(S.Spawned(threshold, n), Free, 0, false) }

  datatype Event =
    | System(e: S.Event)   // driver, kernel, consumer and recycling threads
    | CallStart            // start() returns at once, or sends a command
    | StartReturns         // ... and returns with the acknowledgement
    | CallStop             // the same for stop()
    | StopReturns
    | DropStop             // the future of stop() is dropped

  predicate FromController(e: S.Event) { e.Request? && (e.command.Start? || e.command.Stop?) }

  predicate StartAcked(d: Driver, id: nat) { StartAck(id, true) in d.acks || StartAck(id, false) in d.acks }

  predicate Enabled(c: Ctl, e: Event) {
    match e
    case System(se) => !FromController(se) && S.Enabled(c.s, se)
    case CallStart => c.phase.Free?
    case StartReturns => c.phase.Starting? && StartAcked(c.s.d, c.phase.id)
    case CallStop => c.phase.Free?
    case StopReturns => c.phase.Stopping? && StopAck(c.phase.id, true) in c.s.d.acks
    case DropStop => c.phase.Stopping?
  }

  function WithShared(s: S.Sys, shared: Shared): S.Sys { s.(d := s.d.(shared := shared)) }

  function Step(c: Ctl, e: Event): Ctl
    requires Enabled(c, e)
  {
    match e
    case System(se) => c.(s := S.Step(c.s, se))
    case CallStart =>
      if c.s.d.shared.state == Running then c.(stopReturned := false)
      else Ctl(S.Step(c.s, S.Request(Start(c.calls))), Starting(c.calls), c.calls + 1, false)
    case StartReturns =>
      if StartAck(c.phase.id, true) in c.s.d.acks then c.(phase := Free)
      else c.(phase := Free, s := WithShared(c.s, SetFaulted(c.s.d.shared)))
    case CallStop =>
      if c.s.d.shared.state != Running then c.(stopReturned := true)
      else c.(s := S.Step(c.s, S.Request(Stop(c.calls))), phase := Stopping(c.calls), calls := c.calls + 1)
    case StopReturns => c.(phase := Free, stopReturned := true, s := WithShared(c.s, SetStopped(c.s.d.shared)))
    case DropStop => c.(phase := Free)
  }

  // ----- the invariant -----

  /** The ids of the Start commands in the channel. */
  function Starts(commands: seq<Command>): seq<nat>
    decreases |commands|
  {
    if |commands| == 0 then []
    else (if commands[0].Start? then [commands[0].ack] else []) + Starts(commands[1..])
  }

  lemma {:induction false} StartsAppend(commands: seq<Command>, c: Command)
    ensures Starts(commands + [c]) == Starts(commands) + (if c.Start? then [c.ack] else [])
    decreases |commands|
  {
    if |commands| == 0 {
      assert commands + [c] == [c];
    } else {
      assert (commands + [c])[1..] == commands[1..] + [c];
      StartsAppend(commands[1..], c);
    }
  }

  function AckId(a: Ack): nat { a.id }

  /** Everything sent or acknowledged so far has a number below `calls`. */
  ghost predicate Numbered(s: S.Sys, calls: nat) {
    && (forall a :: a in s.d.acks ==> AckId(a) < calls)
    && (forall c :: c in s.commands && (c.Start? || c.Stop?) ==> c.ack < calls)
    && (s.d.stopAck.Some? ==> s.d.stopAck.value < calls)
  }

  /** A Start is in the channel exactly while a `start` call waits for its acknowledgement. */
  ghost predicate OneStart(c: Ctl) {
    if c.phase.Starting? then
      Starts(c.s.commands) == if StartAcked(c.s.d, c.phase.id) then [] else [c.phase.id]
    else Starts(c.s.commands) == []
  }

  /** What the controller may conclude from what it sees. */
  ghost predicate Honest(c: Ctl) {
    && (c.s.d.shared.state != Running ==> !c.s.d.readActive)
    && (c.phase.Stopping? && StopAck(c.phase.id, true) in c.s.d.acks ==> c.s.stopped)
    && (c.phase.Starting? && StartAck(c.phase.id, false) in c.s.d.acks ==> !c.s.d.readActive)
    && (c.stopReturned ==> !c.s.d.readActive && !c.phase.Starting?)
  }

  ghost predicate Inv(c: Ctl) {
    && S.Inv(c.s) && Numbered(c.s, c.calls) && OneStart(c)
    && (!c.phase.Free? ==> c.phase.id < c.calls)
    && (S.OutOfReach(c.s) ==> Honest(c))
  }

  // ----- what the steps of the driver do to it -----

  /** The acknowledgement that goes with obeying a command. */
  function Replies(d: Driver, c: Command, ring: bool): seq<Ack> {
    match c
    case Start(id) => [StartAck(id, d.readActive || ring)]
    case Stop(id) => if d.readActive then [] else [StopAck(id, true)]
    case _ => []
  }

  /** What obeying a command does, as far as the controller is concerned. */
  ghost predicate Obeyed(d: Driver, c: Command, ring: bool, t: Driver) {
    var restarts := c.AutoResumeCheck? && d.auto.pending;
    && t.acks == d.acks + Replies(d, c, ring)
    && t.stopAck == (if c.Stop? && d.readActive then Some(c.ack) else d.stopAck)
    && t.readActive == (d.readActive || (c.Start? && ring) || restarts)
    && t.shared.state == (if restarts || (c.Start? && t.readActive) then Running else d.shared.state)
  }

  lemma CommandEffects(d: Driver, c: Command, ring: bool)
    requires S.ObeysFine(d, c, ring)
    ensures Obeyed(d, c, ring, HandleCommand(d, c, ring).d)
  {
    var t := HandleCommand(d, c, ring).d;
    match c {
      case Start(_) => assert Obeyed(d, c, ring, t);
      case Stop(_) => assert t.acks == d.acks + Replies(d, c, ring);
      case Shutdown =>
      case AutoResumeCheck =>
    }
  }

  lemma RepliesToStart(d: Driver, c: Command, ring: bool, t: Driver, id: nat)
    requires Obeyed(d, c, ring, t)
    ensures StartAcked(t, id) <==> StartAcked(d, id) || (c.Start? && c.ack == id)
  {
    if c.Start? {
      assert StartAck(c.ack, d.readActive || ring) in t.acks;
    }
  }

  lemma OnlyOne(c: Command, rest: seq<nat>, all: seq<nat>)
    requires all == (if c.Start? then [c.ack] else []) + rest
    ensures c.Start? ==> all != [] && all[0] == c.ack && |all| == |rest| + 1
    ensures !c.Start? ==> all == rest
  {
  }

  lemma ObeyEffects(s: S.Sys, ring: bool)
    requires S.Enabled(s, S.Obey(ring))
    ensures var t, c := S.Step(s, S.Obey(ring)), s.commands[0];
            && Obeyed(s.d, c, ring, t.d)
            && t.commands == s.commands[1..]
            && t.stopped == (!c.Start? && (s.stopped || (c.Stop? && !s.d.readActive)))
  {
    hide HandleCommand;
    CommandEffects(s.d, s.commands[0], ring);
  }

  lemma ReapEffects(s: S.Sys, ring: bool)
    requires S.Inv(s) && S.Enabled(s, S.Reap(ring))
    ensures var t := S.Step(s, S.Reap(ring));
            && t.commands == s.commands
            && (t.d.readActive ==> s.d.readActive) && (s.stopped ==> t.stopped)
            && (t.d.shared.state == s.d.shared.state || !t.d.readActive)
            && (|| (t.d.acks == s.d.acks && t.d.stopAck == s.d.stopAck)
                || (s.d.stopAck.Some? && t.d.acks == s.d.acks + [StopAck(s.d.stopAck.value, true)]
                    && t.d.stopAck.None? && t.stopped))
  {
    S.ReapReads(s, ring);
    hide S.Backlog, S.Fifo, S.Conserved, S.AutoOk, S.Quiet, S.ReadsOk;
  }

  /** With a threshold out of reach a check never finds an armed fault. */
  lemma NoRestart(s: S.Sys, ring: bool)
    requires S.Inv(s) && S.OutOfReach(s) && S.Enabled(s, S.Obey(ring)) && s.commands[0].AutoResumeCheck?
    ensures !s.d.auto.pending
  {
    hide S.ReadsOk, S.Fifo, S.Packets, S.Quiet;
  }

  // ----- every step keeps the invariant -----

  lemma ObeyNumbers(c: Ctl, ring: bool)
    requires Numbered(c.s, c.calls) && OneStart(c) && S.Enabled(c.s, S.Obey(ring))
    ensures var t := c.(s := S.Step(c.s, S.Obey(ring))); Numbered(t.s, t.calls) && OneStart(t)
    ensures !c.phase.Starting? || StartAcked(c.s.d, c.phase.id) ==> !c.s.commands[0].Start?
    ensures c.phase.Starting? && c.s.commands[0].Start? ==> c.s.commands[0].ack == c.phase.id
  {
    var t := c.(s := S.Step(c.s, S.Obey(ring)));
    ObeyEffects(c.s, ring);
    var command := c.s.commands[0];
    assert command in c.s.commands;
    assert Starts(c.s.commands) == (if command.Start? then [command.ack] else []) + Starts(t.s.commands);
    hide S.Step, S.Enabled, Starts, StartAcked;
    OnlyOne(command, Starts(t.s.commands), Starts(c.s.commands));
    if c.phase.Starting? {
      RepliesToStart(c.s.d, command, ring, t.s.d, c.phase.id);
    }
  }

  lemma ObeyHonest(c: Ctl, ring: bool)
    requires Honest(c) && S.Enabled(c.s, S.Obey(ring))
    requires !c.phase.Starting? || StartAcked(c.s.d, c.phase.id) ==> !c.s.commands[0].Start?
    requires c.s.commands[0].AutoResumeCheck? ==> !c.s.d.auto.pending
    ensures Honest(c.(s := S.Step(c.s, S.Obey(ring))))
  {
    ObeyEffects(c.s, ring);
    hide S.Step, S.Enabled;
  }

  lemma ObeyKeeps(c: Ctl, ring: bool)
    requires Inv(c) && S.Enabled(c.s, S.Obey(ring))
    ensures Inv(c.(s := S.Step(c.s, S.Obey(ring))))
  {
    S.StepKeeps(c.s, S.Obey(ring));
    S.StepSizes(c.s, S.Obey(ring));
    ObeyNumbers(c, ring);
    if S.OutOfReach(c.s) {
      if c.s.commands[0].AutoResumeCheck? {
        NoRestart(c.s, ring);
      }
      ObeyHonest(c, ring);
    }
    hide S.Inv, S.Step, S.Enabled, OneStart, Numbered, Honest;
  }

  lemma ReapKeeps(c: Ctl, ring: bool)
    requires Inv(c) && S.Enabled(c.s, S.Reap(ring))
    ensures Inv(c.(s := S.Step(c.s, S.Reap(ring))))
  {
    S.StepKeeps(c.s, S.Reap(ring));
    S.StepSizes(c.s, S.Reap(ring));
    ReapEffects(c.s, ring);
    hide S.Inv, S.Step, S.Enabled;
  }

  lemma OtherEffects(s: S.Sys, e: S.Event)
    requires S.Enabled(s, e) && !e.Obey? && !e.Reap? && !FromController(e)
    ensures var t := S.Step(s, e);
            && t.d.acks == s.d.acks && t.d.stopAck == s.d.stopAck && t.stopped == s.stopped
            && t.d.readActive == s.d.readActive && t.d.shared.state == s.d.shared.state
            && Starts(t.commands) == Starts(s.commands)
            && forall c :: c in t.commands && (c.Start? || c.Stop?) ==> c in s.commands
  {
    hide S.Backlog, Starts;
    if e.Request? {
      StartsAppend(s.commands, e.command);
    } else if e.Recycle? && NoteRecycled(s.d.auto).1 {
      StartsAppend(s.commands, AutoResumeCheck);
    } else {
      assert S.Step(s, e).commands == s.commands;
    }
  }

  lemma OtherKeeps(c: Ctl, e: S.Event)
    requires Inv(c) && S.Enabled(c.s, e) && !e.Obey? && !e.Reap? && !FromController(e)
    ensures Inv(c.(s := S.Step(c.s, e)))
  {
    S.StepKeeps(c.s, e);
    S.StepSizes(c.s, e);
    OtherEffects(c.s, e);
    hide S.Inv, S.Step, S.Enabled;
  }

  /** The invariant of the receive path does not look at the state word or the waiter. */
  lemma StateIsFree(s: S.Sys, shared: Shared)
    requires S.Inv(s) && shared.packets == s.d.shared.packets
    ensures S.Inv(WithShared(s, shared))
  {
    assert S.Backlog(WithShared(s, shared)) == S.Backlog(s);
  }

  /** Sending a command with a new number. */
  lemma RequestKeeps(s: S.Sys, command: Command, calls: nat)
    requires S.Inv(s) && Numbered(s, calls) && (command == Start(calls) || command == Stop(calls))
    ensures S.Enabled(s, S.Request(command))
    ensures var t := S.Step(s, S.Request(command));
            && t == s.(commands := s.commands + [command])
            && S.Inv(t) && Numbered(t, calls + 1)
            && Starts(t.commands) == Starts(s.commands) + (if command.Start? then [calls] else [])
            && !StartAcked(s.d, calls) && StopAck(calls, true) !in s.d.acks
  {
    S.StepKeeps(s, S.Request(command));
    StartsAppend(s.commands, command);
    hide S.Inv, Starts;
  }

  lemma CallStartKeeps(c: Ctl)
    requires Inv(c) && Enabled(c, CallStart)
    ensures Inv(Step(c, CallStart))
  {
    hide S.Inv, Starts, S.Step, S.Enabled, Numbered, StartAcked;
    RequestKeeps(c.s, Start(c.calls), c.calls);
    assert StartAck(c.calls, false) !in c.s.d.acks by { NotAcked(c.s.d, c.calls); }
  }

  lemma NotAcked(d: Driver, id: nat)
    requires !StartAcked(d, id)
    ensures StartAck(id, false) !in d.acks
  {
  }

  lemma CallStopKeeps(c: Ctl)
    requires Inv(c) && Enabled(c, CallStop)
    ensures Inv(Step(c, CallStop))
  {
    hide S.Inv, Starts, S.Step, S.Enabled, Numbered, StartAcked;
    RequestKeeps(c.s, Stop(c.calls), c.calls);
  }

  lemma ReturnKeeps(c: Ctl, e: Event)
    requires Inv(c) && Enabled(c, e) && (e.StartReturns? || e.StopReturns? || e.DropStop?)
    ensures Inv(Step(c, e))
  {
    StateIsFree(c.s, SetFaulted(c.s.d.shared));
    StateIsFree(c.s, SetStopped(c.s.d.shared));
    hide S.ReadsOk, S.Fifo, S.Conserved, S.AutoOk, LoopInv, Starts;
  }

  lemma StepKeeps(c: Ctl, e: Event)
    requires Inv(c) && Enabled(c, e)
    ensures Inv(Step(c, e))
  {
    hide Inv, S.Enabled, S.Step;
    match e {
      case System(se) =>
        if se.Obey? {
          ObeyKeeps(c, se.ring);
        } else if se.Reap? {
          ReapKeeps(c, se.ring);
        } else {
          OtherKeeps(c, se);
        }
      case CallStart => CallStartKeeps(c);
      case CallStop => CallStopKeeps(c);
      case _ => ReturnKeeps(c, e);
    }
  }

  // ----- whole runs -----

  ghost predicate IsRun(c: Ctl, events: seq<Event>, t: Ctl)
    decreases |events|
  {
    if |events| == 0 then c == t
    else Enabled(c, events[0]) && IsRun(Step(c, events[0]), events[1..], t)
  }

  lemma {:induction false} RunKeeps(c: Ctl, events: seq<Event>, t: Ctl)
    requires Inv(c) && IsRun(c, events, t)
    ensures Inv(t)
    decreases |events|
  {
    hide Inv, Enabled, Step;
    if |events| > 0 {
      StepKeeps(c, events[0]);
      RunKeeps(Step(c, events[0]), events[1..], t);
    }
  }

  ghost predicate Reaches(c: Ctl, t: Ctl) {
    exists events :: IsRun(c, events, t)
  }

  lemma {:induction false} OneMore(c: Ctl, events: seq<Event>, t: Ctl, e: Event)
    requires IsRun(c, events, t) && Enabled(t, e)
    ensures IsRun(c, events + [e], Step(t, e))
    decreases |events|
  {
    hide Step, Enabled;
    if |events| == 0 {
      assert events + [e] == [e];
    } else {
      assert (events + [e])[1..] == events[1..] + [e];
      OneMore(Step(c, events[0]), events[1..], t, e);
    }
  }

  lemma Extend(c: Ctl, t: Ctl, e: Event) returns (u: Ctl)
    requires Reaches(c, t) && Enabled(t, e)
    ensures u == Step(t, e) && Reaches(c, u)
  {
    hide Step, Enabled, IsRun;
    var events :| IsRun(c, events, t);
    OneMore(c, events, t, e);
    u := Step(t, e);
  }

  // ----- stop() after a fault, with a threshold within reach -----

  /** Started, and k packets were read and taken. */
  function Reading(threshold: nat, n: nat, k: nat): Ctl
    requires k <= n
  {
    Ctl(S.Reading(threshold, n, k), Free, 1, false)
  }

  /** The ring ran dry, then `stop` was called and returned, then j buffers came back. */
  function Dry(threshold: nat, n: nat, j: nat): Ctl
    requires j <= n
  {
    var d := Driver(false, false, None, false, Auto(threshold, true, j, false), Shared(Faulted, [], None), 1, 0,
                    [StartAck(0, true)]);
    Ctl(S.Sys(d, n, false, [], [], [], false, j, n - j, S.Upto(n), S.Upto(n), false), Free, 1, true)
  }

  lemma ReachesReading(threshold: nat, n: nat)
    ensures Reaches(Spawned(threshold, n), Reading(threshold, n, 0))
  {
    var c := Spawned(threshold, n);
    assert IsRun(c, [], c);
    var t := Extend(c, c, CallStart);
    t := Extend(c, t, System(S.BeginDrain));
    t := Extend(c, t, System(S.Obey(true)));
    t := Extend(c, t, System(S.EndDrain));
    assert StartAck(0, true) in t.s.d.acks;
    t := Extend(c, t, StartReturns);
    assert t == Reading(threshold, n, 0);
  }

  lemma {:induction false} ReachesDrained(threshold: nat, n: nat, k: nat)
    requires k <= n
    ensures Reaches(Spawned(threshold, n), Reading(threshold, n, k))
    decreases k
  {
    hide Reaches, S.Enabled, S.Step, S.Reading, S.PacketInQueue, S.PacketReady;
    var c := Spawned(threshold, n);
    if k == 0 {
      ReachesReading(threshold, n);
    } else {
      ReachesDrained(threshold, n, k - 1);
      S.ReadStep(threshold, n, k - 1);
      var t := Extend(c, Reading(threshold, n, k - 1), System(S.PacketRead(100, true, true, false)));
      S.ReapStep(threshold, n, k - 1);
      t := Extend(c, t, System(S.Reap(true)));
      S.RecvStep(threshold, n, k - 1);
      t := Extend(c, t, System(S.Recv));
    }
  }

  lemma {:induction false} ReachesDry(threshold: nat, n: nat, j: nat)
    requires j < threshold <= n
    ensures Reaches(Spawned(threshold, n), Dry(threshold, n, j))
    decreases j
  {
    hide Reaches;
    var c := Spawned(threshold, n);
    if j == 0 {
      ReachesDrained(threshold, n, n);
      var t := Extend(c, Reading(threshold, n, n), System(S.ReadFailed(-ENOBUFS, false)));
      t := Extend(c, t, System(S.Reap(true)));
      t := Extend(c, t, CallStop);
      assert t == Dry(threshold, n, 0);
    } else {
      ReachesDry(threshold, n, j - 1);
      var t := Extend(c, Dry(threshold, n, j - 1), System(S.Recycle));
      assert t.s.commands == [];
      assert t == Dry(threshold, n, j);
    }
  }

  /** `stop` on a driver that ran out of buffers returns Ok and disarms nothing: once enough packets
      are given back the driver reads again. */
  lemma StopReturnedYetReading(threshold: nat, n: nat) returns (t: Ctl)
    requires 0 < threshold <= n
    ensures Reaches(Spawned(threshold, n), t) && t.stopReturned && t.s.d.running && t.s.readLive
  {
    hide Reaches;
    var c := Spawned(threshold, n);
    ReachesDry(threshold, n, threshold - 1);
    t := Extend(c, Dry(threshold, n, threshold - 1), System(S.Recycle));
    assert t.s.commands == [AutoResumeCheck];
    t := Extend(c, t, System(S.BeginDrain));
    t := Extend(c, t, System(S.Obey(true)));
  }

  // ----- the theorem -----

  /** In every run: from the return of `stop` to the next call of `start` the kernel holds no read
      and no packet is on its way. */
  ghost predicate StopHolds(threshold: nat, n: nat) {
    forall t :: Reaches(Spawned(threshold, n), t) && t.stopReturned ==>
                  !t.s.readLive && !t.s.d.running && S.NoReads(t.s.cq + t.s.overflow)
  }

  lemma StartsWell(threshold: nat, n: nat)
    ensures Inv(Spawned(threshold, n))
  {
    S.StartsWell(threshold, n);
    hide S.Inv;
  }

  lemma StepSizes(c: Ctl, e: Event)
    requires Enabled(c, e)
    ensures Step(c, e).s.n == c.s.n && Step(c, e).s.d.auto.threshold == c.s.d.auto.threshold
  {
    if e.System? {
      S.StepSizes(c.s, e.e);
      hide S.Step;
    }
  }

  lemma {:induction false} RunSizes(c: Ctl, events: seq<Event>, t: Ctl)
    requires IsRun(c, events, t)
    ensures t.s.n == c.s.n && t.s.d.auto.threshold == c.s.d.auto.threshold
    decreases |events|
  {
    hide Step, Enabled;
    if |events| > 0 {
      StepSizes(c, events[0]);
      RunSizes(Step(c, events[0]), events[1..], t);
    }
  }

  lemma ReturnedIsQuiet(c: Ctl)
    requires Inv(c) && S.OutOfReach(c.s) && c.stopReturned
    ensures !c.s.readLive && !c.s.d.running && S.NoReads(c.s.cq + c.s.overflow)
  {
    hide S.Fifo, S.Conserved, S.AutoOk, S.Quiet, Starts;
  }

  /** `stop` keeps its promise exactly when auto-resume is off or its threshold exceeds the buffer
      count, dropped futures and calls in any order included. */
  lemma StopHoldsIff(threshold: nat, n: nat)
    ensures StopHolds(threshold, n) <==> threshold == 0 || threshold > n
  {
    hide Inv, IsRun;
    var c := Spawned(threshold, n);
    if threshold == 0 || threshold > n {
      forall t | Reaches(c, t) && t.stopReturned
        ensures !t.s.readLive && !t.s.d.running && S.NoReads(t.s.cq + t.s.overflow)
      {
        var events :| IsRun(c, events, t);
        StartsWell(threshold, n);
        RunKeeps(c, events, t);
        RunSizes(c, events, t);
        ReturnedIsQuiet(t);
      }
    } else {
      var t := StopReturnedYetReading(threshold, n);
    }
  }
}

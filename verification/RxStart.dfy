/**
 What `start` of `RxController` promises while the driver handle lives: once it returned Ok, and until
 `stop` is called, the driver runs whenever the state word says Running, and it leaves Running only
 by a fault. The promise holds exactly if no future of `stop` is dropped.
 */
module RxStart {
  import opened Common
  import opened RxShared
  import opened RxDriver
  import S = RxSystem
  import C = RxControl

  /** `serving`: `start` returned Ok, and neither call has been made since. */
  datatype Watch = Watch(c: C.Ctl, serving: bool)

  function Spawned(threshold: nat, n: nat): Watch { Watch(C.Spawned(threshold, n), false) }

  /** Dropping the driver handle is what sends Shutdown; `drops` says whether a `stop` may be dropped. */
  predicate Allowed(e: C.Event, drops: bool) {
    !(e.System? && e.e.Request?) && (e.DropStop? ==> drops)
  }

  predicate Enabled(w: Watch, e: C.Event, drops: bool) { Allowed(e, drops) && C.Enabled(w.c, e) }

  function Step(w: Watch, e: C.Event, drops: bool): Watch
    requires Enabled(w, e, drops)
  {
    Watch(
      C.Step(w.c, e),
      match e
      case CallStart => w.c.s.d.shared.state == Running
      case StartReturns => StartAck(w.c.phase.id, true) in w.c.s.d.acks
      case CallStop => false
      case _ => w.serving)
  }

  ghost predicate Serves(w: Watch) {
    var d := w.c.s.d;
    w.serving ==> d.shared.state != Stopped && (d.shared.state == Running ==> d.running && d.readActive)
  }

  // ----- the invariant, without dropped futures -----

  /** The ids of the Stop commands in the channel. */
  function Stops(commands: seq<Command>): seq<nat>
    decreases |commands|
  {
    if |commands| == 0 then []
    else (if commands[0].Stop? then [commands[0].ack] else []) + Stops(commands[1..])
  }

  lemma {:induction false} StopsAppend(commands: seq<Command>, c: Command)
    ensures Stops(commands + [c]) == Stops(commands) + (if c.Stop? then [c.ack] else [])
    decreases |commands|
  {
    if |commands| == 0 {
      assert commands + [c] == [c];
    } else {
      assert (commands + [c])[1..] == commands[1..] + [c];
      StopsAppend(commands[1..], c);
    }
  }

  /** A stop is under way exactly while its call waits: queued, then held, then acknowledged. */
  ghost predicate OneStop(c: C.Ctl) {
    var stops, held := Stops(c.s.commands), c.s.d.stopAck;
    if c.phase.Stopping? && StopAck(c.phase.id, true) !in c.s.d.acks then
      (stops == [c.phase.id] && held.None?) || (stops == [] && held == Some(c.phase.id))
    else stops == [] && held.None?
  }

  /** A driver that shows Running runs, or is being stopped. */
  ghost predicate Shows(d: Driver) {
    d.shared.state == Running ==> d.running || d.stopAck.Some?
  }

  ghost predicate Inv(w: Watch) {
    && C.Inv(w.c) && Shows(w.c.s.d) && OneStop(w.c)
    && (forall c :: c in w.c.s.commands ==> !c.Shutdown?)
    && (w.serving ==> w.c.phase.Free? && w.c.s.d.shared.state != Stopped)
    && (w.c.phase.Starting? && StartAck(w.c.phase.id, true) in w.c.s.d.acks ==> w.c.s.d.shared.state != Stopped)
  }

  lemma InvServes(w: Watch)
    requires Inv(w)
    ensures Serves(w)
  {
    hide C.OneStart, C.Numbered, S.ReadsOk, S.Fifo, S.Conserved, S.AutoOk;
  }

  // ----- every step keeps it -----

  lemma CommandShows(d: Driver, c: Command, ring: bool)
    requires S.ObeysFine(d, c, ring) && LoopInv(d) && Shows(d) && !c.Shutdown?
    ensures Shows(HandleCommand(d, c, ring).d)
  {
  }

  lemma ObeyShows(s: S.Sys, ring: bool)
    requires S.Enabled(s, S.Obey(ring)) && LoopInv(s.d) && Shows(s.d) && !s.commands[0].Shutdown?
    ensures Shows(S.Step(s, S.Obey(ring)).d)
  {
    hide HandleCommand, S.AckedStop;
    CommandShows(s.d, s.commands[0], ring);
  }

  lemma OnlyStop(c: Command, rest: seq<nat>, all: seq<nat>)
    requires all == (if c.Stop? then [c.ack] else []) + rest
    ensures c.Stop? ==> all != [] && all[0] == c.ack && |all| == |rest| + 1
    ensures !c.Stop? ==> all == rest
  {
  }

  /** Which acknowledgements obeying a command adds. */
  lemma RepliesTo(d: Driver, c: Command, ring: bool, t: Driver, id: nat)
    requires C.Obeyed(d, c, ring, t)
    ensures StopAck(id, true) in t.acks <==> StopAck(id, true) in d.acks || (c == Stop(id) && !d.readActive)
    ensures StartAck(id, true) in t.acks <==> StartAck(id, true) in d.acks || (c == Start(id) && (d.readActive || ring))
  {
    hide Disarm;
    match c {
      case Start(_) => assert StartAck(c.ack, d.readActive || ring) in t.acks;
      case Stop(_) => assert !d.readActive ==> StopAck(c.ack, true) in t.acks;
      case _ => assert t.acks == d.acks;
    }
  }

  lemma ObeyStops(c: C.Ctl, ring: bool)
    requires OneStop(c) && S.Enabled(c.s, S.Obey(ring))
    ensures OneStop(c.(s := S.Step(c.s, S.Obey(ring))))
  {
    var t := S.Step(c.s, S.Obey(ring));
    var command := c.s.commands[0];
    C.ObeyEffects(c.s, ring);
    assert Stops(c.s.commands) == (if command.Stop? then [command.ack] else []) + Stops(t.commands);
    hide S.Step, S.Enabled, Stops;
    OnlyStop(command, Stops(t.commands), Stops(c.s.commands));
    if c.phase.Stopping? {
      RepliesTo(c.s.d, command, ring, t.d, c.phase.id);
    }
  }

  lemma ObeyKeeps(w: Watch, ring: bool)
    requires Inv(w) && S.Enabled(w.c.s, S.Obey(ring))
    ensures Inv(w.(c := w.c.(s := S.Step(w.c.s, S.Obey(ring)))))
  {
    var s, t := w.c.s, S.Step(w.c.s, S.Obey(ring));
    assert s.commands[0] in s.commands && S.ObeysFine(s.d, s.commands[0], ring);
    C.ObeyKeeps(w.c, ring);
    C.ObeyNumbers(w.c, ring);
    C.ObeyEffects(s, ring);
    ObeyStops(w.c, ring);
    ObeyShows(s, ring);
    hide S.Step, S.Enabled, OneStop, C.Inv, Shows;
    if w.c.phase.Starting? {
      RepliesTo(s.d, s.commands[0], ring, t.d, w.c.phase.id);
    }
    assert forall c :: c in t.commands ==> c in s.commands;
  }

  lemma CqeShows(d: Driver, c: Cqe, ring: bool)
    requires !HandleCqe(d, c, ring).err && LoopInv(d) && Shows(d)
    requires c.ReadCqe? && c.res < 0 ==> !c.more
    ensures var t := HandleCqe(d, c, ring).d;
            Shows(t) && (d.stopAck.None? ==> t.shared.state == d.shared.state || t.shared.state == Faulted)
  {
  }

  lemma ReapKeeps(w: Watch, ring: bool)
    requires Inv(w) && S.Enabled(w.c.s, S.Reap(ring))
    ensures Inv(w.(c := w.c.(s := S.Step(w.c.s, S.Reap(ring)))))
  {
    var s, t := w.c.s, S.Step(w.c.s, S.Reap(ring));
    S.ReapReads(s, ring);
    CqeShows(s.d, s.cq[0], ring);
    assert t.d == HandleCqe(s.d, s.cq[0], ring).d;
    C.ReapKeeps(w.c, ring);
    C.ReapEffects(s, ring);
    hide S.Step, S.Enabled, C.Inv, Shows, HandleCqe, Stops;
  }

  lemma OtherStops(s: S.Sys, e: S.Event)
    requires S.Enabled(s, e) && !e.Obey? && !e.Reap? && !e.Request?
    ensures var t := S.Step(s, e);
            && t.d.running == s.d.running && Stops(t.commands) == Stops(s.commands)
            && forall c :: c in t.commands && c.Shutdown? ==> c in s.commands
  {
    hide S.Backlog, Stops;
    if e.Recycle? && NoteRecycled(s.d.auto).1 {
      StopsAppend(s.commands, AutoResumeCheck);
    } else {
      assert S.Step(s, e).commands == s.commands;
    }
  }

  lemma OtherKeeps(w: Watch, e: S.Event)
    requires Inv(w) && S.Enabled(w.c.s, e) && !e.Obey? && !e.Reap? && !e.Request?
    ensures Inv(w.(c := w.c.(s := S.Step(w.c.s, e))))
  {
    C.OtherKeeps(w.c, e);
    C.OtherEffects(w.c.s, e);
    OtherStops(w.c.s, e);
    hide S.Step, S.Enabled, C.Inv, Stops;
  }

  lemma CallKeeps(w: Watch, e: C.Event)
    requires Inv(w) && C.Enabled(w.c, e) && (e.CallStart? || e.CallStop?)
    ensures Inv(Step(w, e, false))
  {
    var command := if e.CallStart? then Start(w.c.calls) else Stop(w.c.calls);
    C.StepKeeps(w.c, e);
    C.RequestKeeps(w.c.s, command, w.c.calls);
    StopsAppend(w.c.s.commands, command);
    assert StartAck(w.c.calls, true) !in w.c.s.d.acks;
    hide S.Step, S.Enabled, C.Inv, Stops;
  }

  lemma ReturnKeeps(w: Watch, e: C.Event)
    requires Inv(w) && C.Enabled(w.c, e) && (e.StartReturns? || e.StopReturns?)
    ensures Inv(Step(w, e, false))
  {
    C.StepKeeps(w.c, e);
    hide C.Inv, Stops;
  }

  lemma StepKeeps(w: Watch, e: C.Event)
    requires Inv(w) && Enabled(w, e, false)
    ensures Inv(Step(w, e, false))
  {
    hide Inv, S.Enabled, S.Step;
    match e {
      case System(se) =>
        if se.Obey? {
          ObeyKeeps(w, se.ring);
        } else if se.Reap? {
          ReapKeeps(w, se.ring);
        } else {
          OtherKeeps(w, se);
        }
      case CallStart => CallKeeps(w, e);
      case CallStop => CallKeeps(w, e);
      case StartReturns => ReturnKeeps(w, e);
      case StopReturns => ReturnKeeps(w, e);
    }
  }

  // ----- whole runs -----

  ghost predicate IsRun(w: Watch, events: seq<C.Event>, t: Watch, drops: bool)
    decreases |events|
  {
    if |events| == 0 then w == t
    else Enabled(w, events[0], drops) && IsRun(Step(w, events[0], drops), events[1..], t, drops)
  }

  lemma {:induction false} RunKeeps(w: Watch, events: seq<C.Event>, t: Watch)
    requires Inv(w) && IsRun(w, events, t, false)
    ensures Inv(t)
    decreases |events|
  {
    hide Inv, Enabled, Step;
    if |events| > 0 {
      StepKeeps(w, events[0]);
      RunKeeps(Step(w, events[0], false), events[1..], t);
    }
  }

  ghost predicate Reaches(w: Watch, t: Watch, drops: bool) {
    exists events :: IsRun(w, events, t, drops)
  }

  lemma {:induction false} OneMore(w: Watch, events: seq<C.Event>, t: Watch, e: C.Event)
    requires IsRun(w, events, t, true) && Enabled(t, e, true)
    ensures IsRun(w, events + [e], Step(t, e, true), true)
    decreases |events|
  {
    hide Step, Enabled;
    if |events| == 0 {
      assert events + [e] == [e];
    } else {
      assert (events + [e])[1..] == events[1..] + [e];
      OneMore(Step(w, events[0], true), events[1..], t, e);
    }
  }

  lemma Extend(w: Watch, t: Watch, e: C.Event) returns (u: Watch)
    requires Reaches(w, t, true) && Enabled(t, e, true)
    ensures u == Step(t, e, true) && Reaches(w, u, true)
  {
    hide Step, Enabled, IsRun;
    var events :| IsRun(w, events, t, true);
    OneMore(w, events, t, e);
    u := Step(t, e, true);
  }

  /** A started driver is asked to stop, the future is dropped, and `start` finds the state word
      Running: it returns Ok without a command. */
  lemma StartedAgain(threshold: nat, n: nat) returns (t: Watch)
    ensures Reaches(Spawned(threshold, n), t, true)
    ensures var s := C.Reading(threshold, n, 0).s;
            t == Watch(C.Ctl(s.(commands := [Stop(1)]), C.Free, 2, false), true)
  {
    hide Reaches;
    var w := Spawned(threshold, n);
    assert Reaches(w, w, true) by { ReachesItself(w); }
    t := Extend(w, w, C.CallStart);
    t := Extend(w, t, C.System(S.BeginDrain));
    t := Extend(w, t, C.System(S.Obey(true)));
    t := Extend(w, t, C.System(S.EndDrain));
    assert StartAck(0, true) in t.c.s.d.acks;
    t := Extend(w, t, C.StartReturns);
    assert t.c == C.Reading(threshold, n, 0);
    t := Extend(w, t, C.CallStop);
    t := Extend(w, t, C.DropStop);
    t := Extend(w, t, C.CallStart);
  }

  lemma ReachesItself(w: Watch)
    ensures Reaches(w, w, true)
  {
    assert IsRun(w, [], w, true);
  }

  /** The queued Stop is obeyed all the same, and the driver stops although `start` was the last call. */
  lemma StartedYetStopped(threshold: nat, n: nat) returns (t: Watch)
    ensures Reaches(Spawned(threshold, n), t, true)
    ensures t.serving && !t.c.s.d.running && t.c.s.d.shared.state == Stopped
  {
    hide Reaches;
    var w := Spawned(threshold, n);
    t := StartedAgain(threshold, n);
    t := Extend(w, t, C.System(S.BeginDrain));
    t := Extend(w, t, C.System(S.Obey(true)));
    t := Extend(w, t, C.System(S.EndDrain));
    t := Extend(w, t, C.System(S.ReadFailed(-ECANCELED, false)));
    t := Extend(w, t, C.System(S.Reap(true)));
  }

  ghost predicate StartHolds(threshold: nat, n: nat, drops: bool) {
    forall t :: Reaches(Spawned(threshold, n), t, drops) ==> Serves(t)
  }

  lemma StartsWell(threshold: nat, n: nat)
    ensures Inv(Spawned(threshold, n))
  {
    C.StartsWell(threshold, n);
    hide C.Inv;
  }

  /** `start` keeps its promise in every run, whatever the threshold, exactly if no future of `stop`
      is dropped. */
  lemma StartHoldsIff(threshold: nat, n: nat, drops: bool)
    ensures StartHolds(threshold, n, drops) <==> !drops
  {
    hide Inv, IsRun;
    if drops {
      var t := StartedYetStopped(threshold, n);
    } else {
      forall t | Reaches(Spawned(threshold, n), t, false)
        ensures Serves(t)
      {
        var events :| IsRun(Spawned(threshold, n), events, t, false);
        StartsWell(threshold, n);
        RunKeeps(Spawned(threshold, n), events, t);
        InvServes(t);
      }
    }
  }
}

/**
 The one-batch slot of `src/core/tx.rs`: `TxBatchShared`, the senders that compete for it in
 `send_many`, and the driver thread that releases it.
 */
module TxSlot {
  datatype Phase = Idle | Running | Cancelling

  /** The state under the mutex; a waiter is named by the future its waker wakes. */
  datatype Slot = Slot(phase: Phase, waiters: seq<nat>)

  function TryAcquire(s: Slot): (Slot, bool) {
    if s.phase != Idle then (s, false) else (s.(phase := Running), true)
  }

  function TryAcquireOrRegister(s: Slot, task: nat): (Slot, bool) {
    if s.phase == Idle then (s.(phase := Running), true)
    else if task in s.waiters then (s, false)
    else (s.(waiters := s.waiters + [task]), false)
  }

  function RequestCancel(s: Slot): (Slot, bool) {
    if s.phase != Running then (s, false) else (s.(phase := Cancelling), true)
  }

  /** Also gives the tasks that are woken. */
  function ReleaseToIdle(s: Slot): (Slot, seq<nat>, bool) {
    if s.phase == Idle then (s, [], false) else (Slot(Idle, []), s.waiters, true)
  }

  /** Idle becomes Running, Running may become Cancelling, and both become Idle; every other request is
      refused and changes no phase. */
  lemma PhaseMoves(s: Slot, task: nat)
    ensures TryAcquire(s).1 == TryAcquireOrRegister(s, task).1 == (s.phase == Idle)
    ensures RequestCancel(s).1 == (s.phase == Running)
    ensures ReleaseToIdle(s).2 == (s.phase != Idle) && ReleaseToIdle(s).0.phase == Idle
    ensures TryAcquire(s).0.phase == TryAcquireOrRegister(s, task).0.phase == if s.phase == Idle then Running else s.phase
    ensures RequestCancel(s).0.phase == if s.phase == Running then Cancelling else s.phase
  {
  }

  class TxBatchShared {
    var phase: Phase
    var waiters: seq<nat>
    /** Tasks woken so far, in order. */
    var woken: seq<nat>

    ghost function Contents(): Slot
      reads this
    {
      Slot(phase, waiters)
    }

    constructor ()
      ensures Contents() == Slot(Idle, []) && woken == []
    {
      phase, waiters, woken := Idle, [], [];
    }

    method AcquireNow() returns (acquired: bool)
      modifies this
      ensures (Contents(), acquired) == TryAcquire(old(Contents())) && woken == old(woken)
    {
      if phase != Idle {
        return false;
      }
      phase := Running;
      return true;
    }

    method AcquireOrRegister(task: nat) returns (acquired: bool)
      modifies this
      ensures (Contents(), acquired) == TryAcquireOrRegister(old(Contents()), task) && woken == old(woken)
    {
      if phase == Idle {
        phase := Running;
        return true;
      }
      if task !in waiters {
        waiters := waiters + [task];
      }
      return false;
    }

    method Cancel() returns (requested: bool)
      modifies this
      ensures (Contents(), requested) == RequestCancel(old(Contents())) && woken == old(woken)
    {
      if phase != Running {
        return false;
      }
      phase := Cancelling;
      return true;
    }

    method Release() returns (released: bool)
      modifies this
      ensures var (slot, tasks, done) := ReleaseToIdle(old(Contents()));
              Contents() == slot && woken == old(woken) + tasks && released == done
    {
      if phase == Idle {
        return false;
      }
      phase := Idle;
      while |waiters| > 0
        invariant phase == Idle && woken + waiters == old(woken) + old(waiters)
        decreases |waiters|
      {
        woken := woken + [waiters[0]];
        waiters := waiters[1..];
      }
      return true;
    }
  }

  // ----- senders, commands and driver -----

  /** A `send_many` future. A waiting sender has `wake` set when its task has been woken, or has not
      been polled yet, since it last went to sleep. */
  datatype Sender = Waiting(wake: bool) | Holding | Sent | Answered | Finished

  datatype Command = RunBatch(sender: nat) | Shutdown

  /** `running` is the batch the driver works on, `responded` whether its response is out, and
      `cancelling` whether the driver has begun to cancel the batch that holds the slot. */
  datatype System = System(
    slot: Slot, senders: map<nat, Sender>, commands: seq<Command>,
    running: seq<nat>, responded: bool, shutdown: bool, cancelling: bool)

  datatype Event =
    | Start(i: nat)         // send_many is called: try_acquire
    | Poll(i: nat)          // the acquire future is polled
    | TimedOut(i: nat)      // its timer fires, or it is dropped, before it has the slot
    | Expire(i: nat)        // the deadline passed between acquiring and sending
    | Send(i: nat)          // RunBatch is queued
    | Forget(i: nat)        // the future is dropped while waiting for the response
    | Receive(i: nat)       // the response arrives
    | AskShutdown           // Shutdown is queued
    | Take                  // the idle driver takes a command
    | CancelRunning         // the running batch is being cancelled
    | DrainWhileRunning     // the driver drains the channel during a batch
    | Respond               // the driver sends the response
    | Release               // ... and releases the slot

  predicate Enabled(s: System, e: Event) {
    match e
    case Start(i) => i !in s.senders
    case Poll(i) => i in s.senders && s.senders[i].Waiting?
    case TimedOut(i) => i in s.senders && s.senders[i].Waiting?
    case Expire(i) => i in s.senders && s.senders[i].Holding?
    case Send(i) => i in s.senders && s.senders[i].Holding?
    case Forget(i) => i in s.senders && (s.senders[i].Sent? || s.senders[i].Answered?)
    case Receive(i) => i in s.senders && s.senders[i].Answered?
    case AskShutdown => true
    case Take => |s.commands| > 0 && s.running == [] && !s.shutdown
    case CancelRunning => |s.running| > 0 && !s.responded
    case DrainWhileRunning => |s.commands| > 0 && |s.running| > 0 && !s.responded
    case Respond => |s.running| > 0 && !s.responded
    case Release => |s.running| > 0 && s.responded
  }

  function Woken(senders: map<nat, Sender>, tasks: seq<nat>): map<nat, Sender> {
    map i | i in senders :: if senders[i].Waiting? && i in tasks then Waiting(true) else senders[i]
  }

  /** A response for sender i is out; it may be gone by now. */
  function Replied(senders: map<nat, Sender>, i: nat): map<nat, Sender> {
    if i in senders && senders[i].Sent? then senders[i := Answered] else senders
  }

  function Released(s: System): System {
    var (slot, tasks, _) := ReleaseToIdle(s.slot);
    s.(slot := slot, senders := Woken(s.senders, tasks), cancelling := false)
  }

  function Apply(s: System, e: Event): System
    requires Enabled(s, e)
  {
    match e
    case Start(i) =>
      var (slot, acquired) := TryAcquire(s.slot);
      s.(slot := slot, senders := s.senders[i := if acquired then Holding else Waiting(true)])
    case Poll(i) =>
      var (slot, acquired) := TryAcquireOrRegister(s.slot, i);
      s.(slot := slot, senders := s.senders[i := if acquired then Holding else Waiting(false)])
    case TimedOut(i) => s.(senders := s.senders[i := Finished])
    case Expire(i) => Released(s.(senders := s.senders[i := Finished]))
    case Send(i) => s.(senders := s.senders[i := Sent], commands := s.commands + [RunBatch(i)])
    case Forget(i) => s.(senders := s.senders[i := Finished])
    case Receive(i) => s.(senders := s.senders[i := Finished])
    case AskShutdown => s.(commands := s.commands + [Shutdown])
    case Take =>
      (match s.commands[0]
       case RunBatch(i) => s.(commands := s.commands[1..], running := [i], responded := false)
       case Shutdown => s.(commands := s.commands[1..], shutdown := true))
    case CancelRunning => s.(slot := RequestCancel(s.slot).0, cancelling := true)
    case DrainWhileRunning =>
      // a second batch would be answered here, without the slot ever being released for it
      (match s.commands[0]
       case RunBatch(i) => s.(commands := s.commands[1..], senders := Replied(s.senders, i))
       case Shutdown => s.(commands := s.commands[1..], shutdown := true))
    case Respond => s.(responded := true, senders := Replied(s.senders, s.running[0]))
    case Release => Released(s.(running := []))
  }

  const INITIAL := System(Slot(Idle, []), map[], [], [], false, false, false)

  // ----- the invariant -----

  function HoldingSenders(senders: map<nat, Sender>): set<nat> {
    set i | i in senders && senders[i].Holding?
  }

  function Queued(commands: seq<Command>): nat {
    if |commands| == 0 then 0 else (if commands[0].RunBatch? then 1 else 0) + Queued(commands[1..])
  }

  /** Senders about to send, queued batches, and the running batch. */
  function Holders(s: System): nat {
    |HoldingSenders(s.senders)| + Queued(s.commands) + |s.running|
  }

  ghost predicate Inv(s: System) {
    && Holders(s) == (if s.slot.phase == Idle then 0 else 1)
    && |s.running| <= 1
    && (s.slot.phase == Idle ==> s.slot.waiters == [])
    && (forall i :: i in s.senders && s.senders[i] == Waiting(false) ==> i in s.slot.waiters)
    && (forall i, j :: 0 <= i < j < |s.slot.waiters| ==> s.slot.waiters[i] != s.slot.waiters[j])
    && (s.slot.phase == Cancelling <==> s.cancelling)
  }

  lemma {:induction false} QueuedAppend(commands: seq<Command>, c: Command)
    ensures Queued(commands + [c]) == Queued(commands) + (if c.RunBatch? then 1 else 0)
    decreases |commands|
  {
    if |commands| == 0 {
      assert commands + [c] == [c];
    } else {
      assert (commands + [c])[1..] == commands[1..] + [c];
      QueuedAppend(commands[1..], c);
    }
  }

  /** How one sender's change of state changes the number of senders about to send. */
  lemma HoldingUpdate(senders: map<nat, Sender>, i: nat, to: Sender)
    ensures |HoldingSenders(senders[i := to])|
            == |HoldingSenders(senders)| + (if to.Holding? then 1 else 0)
               - (if i in senders && senders[i].Holding? then 1 else 0)
  {
    var before, after := HoldingSenders(senders), HoldingSenders(senders[i := to]);
    if to.Holding? {
      assert after == before + {i};
    } else {
      assert after == before - {i};
    }
  }

  lemma HoldingReplied(senders: map<nat, Sender>, i: nat)
    ensures HoldingSenders(Replied(senders, i)) == HoldingSenders(senders)
  {
  }

  lemma HoldingWoken(senders: map<nat, Sender>, tasks: seq<nat>)
    ensures HoldingSenders(Woken(senders, tasks)) == HoldingSenders(senders)
  {
  }

  lemma AcquireKeeps(s: System, e: Event)
    requires Inv(s) && Enabled(s, e) && (e.Start? || e.Poll?)
    ensures Inv(Apply(s, e))
  {
    hide HoldingSenders, Queued;
    HoldingUpdate(s.senders, e.i, Holding);
    HoldingUpdate(s.senders, e.i, Waiting(e.Start?));
  }

  lemma LeaveKeeps(s: System, e: Event)
    requires Inv(s) && Enabled(s, e) && (e.TimedOut? || e.Forget? || e.Receive?)
    ensures Inv(Apply(s, e))
  {
    hide HoldingSenders, Queued;
    HoldingUpdate(s.senders, e.i, Finished);
  }

  lemma ReleaseKeeps(s: System, e: Event)
    requires Inv(s) && Enabled(s, e) && (e.Expire? || e.Release?)
    ensures Inv(Apply(s, e))
  {
    hide HoldingSenders, Queued;
    if e.Expire? {
      HoldingUpdate(s.senders, e.i, Finished);
      HoldingWoken(s.senders[e.i := Finished], s.slot.waiters);
    } else {
      HoldingWoken(s.senders, s.slot.waiters);
    }
  }

  lemma QueueKeeps(s: System, e: Event)
    requires Inv(s) && Enabled(s, e) && (e.Send? || e.AskShutdown? || e.Take? || e.DrainWhileRunning?)
    ensures Inv(Apply(s, e))
  {
    hide HoldingSenders;
    if e.Send? {
      HoldingUpdate(s.senders, e.i, Sent);
      QueuedAppend(s.commands, RunBatch(e.i));
    } else if e.AskShutdown? {
      QueuedAppend(s.commands, Shutdown);
    }
  }

  /** One step of any sender or of the driver keeps the invariant. */
  lemma StepKeeps(s: System, e: Event)
    requires Inv(s) && Enabled(s, e)
    ensures Inv(Apply(s, e))
  {
    hide HoldingSenders, Queued;
    match e {
      case Start(_) => AcquireKeeps(s, e);
      case Poll(_) => AcquireKeeps(s, e);
      case TimedOut(_) => LeaveKeeps(s, e);
      case Forget(_) => LeaveKeeps(s, e);
      case Receive(_) => LeaveKeeps(s, e);
      case Expire(_) => ReleaseKeeps(s, e);
      case Release => ReleaseKeeps(s, e);
      case Send(_) => QueueKeeps(s, e);
      case AskShutdown => QueueKeeps(s, e);
      case Take => QueueKeeps(s, e);
      case DrainWhileRunning => QueueKeeps(s, e);
      case CancelRunning =>
      case Respond => HoldingReplied(s.senders, s.running[0]);
    }
  }

  // ----- whole runs -----

  ghost predicate IsRun(s: System, events: seq<Event>, t: System)
    decreases |events|
  {
    if |events| == 0 then s == t
    else Enabled(s, events[0]) && IsRun(Apply(s, events[0]), events[1..], t)
  }

  lemma {:induction false} RunKeeps(s: System, events: seq<Event>, t: System)
    requires Inv(s) && IsRun(s, events, t)
    ensures Inv(t)
    decreases |events|
  {
    if |events| > 0 {
      StepKeeps(s, events[0]);
      RunKeeps(Apply(s, events[0]), events[1..], t);
    }
  }

  lemma {:induction false} QueuedNone(commands: seq<Command>)
    requires Queued(commands) == 0
    ensures forall j :: 0 <= j < |commands| ==> commands[j].Shutdown?
    decreases |commands|
  {
    if |commands| > 0 {
      QueuedNone(commands[1..]);
      assert forall j :: 1 <= j < |commands| ==> commands[j] == commands[1..][j - 1];
    }
  }

  /**
   In every reachable state the slot is taken exactly when one holder exists, and while a batch
   runs no sender is about to send and the channel holds no second batch.
   */
  lemma OneHolder(events: seq<Event>, t: System)
    requires IsRun(INITIAL, events, t)
    ensures t.slot.phase != Idle <==> Holders(t) == 1
    ensures Holders(t) <= 1
    ensures |t.running| > 0 ==> HoldingSenders(t.senders) == {} && forall c :: c in t.commands ==> c.Shutdown?
  {
    assert Inv(INITIAL) by {
      assert HoldingSenders(INITIAL.senders) == {};
    }
    RunKeeps(INITIAL, events, t);
    if |t.running| > 0 {
      QueuedNone(t.commands);
    }
  }

  /** In every reachable state no waiter is registered twice, and the slot shows Cancelling exactly while
      the batch that holds it is being cancelled. */
  lemma PhaseShows(events: seq<Event>, t: System)
    requires IsRun(INITIAL, events, t)
    ensures forall i, j :: 0 <= i < j < |t.slot.waiters| ==> t.slot.waiters[i] != t.slot.waiters[j]
    ensures t.slot.phase == Cancelling <==> t.cancelling
  {
    assert Inv(INITIAL) by {
      assert HoldingSenders(INITIAL.senders) == {};
    }
    RunKeeps(INITIAL, events, t);
  }

  /**
   No wake-up is lost: in every reachable state with an idle slot nobody is registered, and every
   sender that still waits has been woken and gets the slot at its next poll.
   */
  lemma NoLostWakeup(events: seq<Event>, t: System, i: nat)
    requires IsRun(INITIAL, events, t) && t.slot.phase == Idle
    ensures t.slot.waiters == []
    ensures i in t.senders && t.senders[i].Waiting? ==>
              t.senders[i].wake && Enabled(t, Poll(i)) && Apply(t, Poll(i)).senders[i] == Holding
  {
    assert Inv(INITIAL) by {
      assert HoldingSenders(INITIAL.senders) == {};
    }
    RunKeeps(INITIAL, events, t);
  }
}

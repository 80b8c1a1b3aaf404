/** `RxShared` and `RxWaiterSlot` of `src/core/rx.rs`: packet queue, state and the one waiter. */
module RxShared {
  import opened Common

  datatype RxState = Running | Stopped | Faulted
  datatype RecvError = WouldBlock | Terminal(state: RxState)
  datatype Received<T> = Got(value: T) | Failed(error: RecvError)

  /** Packets and wakers are named by numbers. */
  datatype Shared = Shared(state: RxState, packets: seq<nat>, waiter: Option<nat>)

  const EMPTY := Shared(Stopped, [], None)

  function SetRunning(s: Shared): Shared { s.(state := Running) }
  function SetStopped(s: Shared): Shared { s.(state := Stopped, waiter := None) }
  function SetFaulted(s: Shared): Shared { s.(state := Faulted, waiter := None) }
  function PushPacket(s: Shared, packet: nat): Shared { s.(packets := s.packets + [packet], waiter := None) }

  function NothingError(s: Shared): RecvError {
    if s.state == Running then WouldBlock else Terminal(s.state)
  }

  function TryRecv(s: Shared): (Shared, Received<nat>) {
    if |s.packets| > 0 then (s.(packets := s.packets[1..]), Got(s.packets[0]))
    else (s, Failed(NothingError(s)))
  }

  /** What `try_recv` returns when it is called up to `len` times, until it fails. */
  function RepeatRecv(s: Shared, len: nat): (Shared, seq<nat>)
    decreases len
  {
    if len == 0 then (s, [])
    else
      match TryRecv(s)
      case (_, Failed(_)) => (s, [])
      case (s', Got(packet)) =>
        var (s'', rest) := RepeatRecv(s', len - 1);
        (s'', [packet] + rest)
  }

  datatype Ready = Readable | ReadError(error: RecvError) | Pending

  function PollReadable(s: Shared, waker: nat): (Shared, Ready) {
    if |s.packets| > 0 then (s, Readable)
    else if s.state != Running then (s, ReadError(NothingError(s)))
    else (s.(waiter := Some(waker)), Pending)
  }

  /** A registered waiter has nothing to receive yet. */
  ghost predicate NothingMissed(s: Shared) {
    s.waiter.Some? ==> s.packets == [] && s.state == Running
  }

  class RxSharedState {
    var state: RxState
    var packets: seq<nat>
    var waiter: Option<nat>
    /** Wakers woken so far. */
    var woken: seq<nat>

    ghost function Contents(): Shared
      reads this
    {
      Shared(state, packets, waiter)
    }

    constructor ()
      ensures Contents() == EMPTY && woken == []
    {
      state, packets, waiter, woken := Stopped, [], None, [];
    }

    method Wake()
      modifies this`waiter, this`woken
      ensures waiter == None
      ensures woken == old(woken) + (if old(waiter).Some? then [old(waiter).value] else [])
    {
      if waiter.Some? {
        woken := woken + [waiter.value];
        waiter := None;
      }
    }

    method Push(packet: nat)
      modifies this
      ensures Contents() == PushPacket(old(Contents()), packet)
      ensures old(waiter).Some? ==> woken == old(woken) + [old(waiter).value]
    {
      packets := packets + [packet];
      Wake();
    }

    method Stop()
      modifies this
      ensures Contents() == SetStopped(old(Contents()))
      ensures old(waiter).Some? ==> woken == old(woken) + [old(waiter).value]
    {
      state := Stopped;
      Wake();
    }

    method Fault()
      modifies this
      ensures Contents() == SetFaulted(old(Contents()))
      ensures old(waiter).Some? ==> woken == old(woken) + [old(waiter).value]
    {
      state := Faulted;
      Wake();
    }

    method Recv() returns (r: Received<nat>)
      modifies this
      ensures (Contents(), r) == TryRecv(old(Contents())) && woken == old(woken)
      ensures r == Failed(WouldBlock) <==> old(packets) == [] && state == Running
      ensures r == Failed(Terminal(state)) <==> old(packets) == [] && state != Running
    {
      if |packets| > 0 {
        r := Got(packets[0]);
        packets := packets[1..];
        return;
      }
      r := Failed(if state == Running then WouldBlock else Terminal(state));
    }

    /** `try_recv_many` into `out` hands over what repeated `try_recv` would, and fails as it would. */
    method RecvMany(out: array<Option<nat>>) returns (r: Received<nat>)
      modifies this, out
      ensures var (after, got) := RepeatRecv(old(Contents()), out.Length);
              && Contents() == after && woken == old(woken) && |got| <= out.Length
              && (forall i :: 0 <= i < |got| ==> out[i] == Some(got[i]))
              && (forall i :: |got| <= i < out.Length ==> out[i] == old(out[i]))
              && r == if out.Length > 0 && got == [] then Failed(NothingError(old(Contents()))) else Got(|got|)
    {
      if out.Length == 0 {
        return Got(0);
      }
      RepeatTakesPrefix(Contents(), out.Length);
      if |packets| == 0 {
        return Failed(if state == Running then WouldBlock else Terminal(state));
      }
      ghost var all := packets;
      var count := 0;
      while count < out.Length && |packets| > 0
        invariant 0 <= count <= out.Length && count <= |all| && packets == all[count..]
        invariant state == old(state) && waiter == old(waiter) && woken == old(woken)
        invariant forall i :: 0 <= i < count ==> out[i] == Some(all[i])
        invariant forall i :: count <= i < out.Length ==> out[i] == old(out[i])
        decreases out.Length - count
      {
        out[count] := Some(packets[0]);
        packets := packets[1..];
        count := count + 1;
      }
      r := Got(count);
    }

    method Poll(waker: nat) returns (r: Ready)
      modifies this
      ensures (Contents(), r) == PollReadable(old(Contents()), waker) && woken == old(woken)
    {
      if |packets| > 0 {
        return Readable;
      }
      if state != Running {
        return ReadError(Terminal(state));
      }
      if waiter != Some(waker) {
        waiter := Some(waker);
      }
      return Pending;
    }
  }

  lemma {:induction false} RepeatTakesPrefix(s: Shared, len: nat)
    ensures var take := if len < |s.packets| then len else |s.packets|;
            RepeatRecv(s, len) == (s.(packets := s.packets[take..]), s.packets[..take])
    decreases len
  {
    if len > 0 && |s.packets| > 0 {
      RepeatTakesPrefix(s.(packets := s.packets[1..]), len - 1);
      var take := if len < |s.packets| then len else |s.packets|;
      assert s.packets[1..][take - 1..] == s.packets[take..];
      assert s.packets[..take] == [s.packets[0]] + s.packets[1..][..take - 1];
    } else {
      assert s.packets[0..] == s.packets;
    }
  }

  /** Whoever finds nothing is told WouldBlock exactly while the state is Running, and the terminal state
      otherwise; this holds for a single receive, for many, and for polling. */
  lemma NothingToReceive(s: Shared, waker: nat)
    ensures TryRecv(s).1 == Failed(WouldBlock) <==> s.packets == [] && s.state == Running
    ensures TryRecv(s).1 == Failed(Terminal(s.state)) <==> s.packets == [] && s.state != Running
    ensures PollReadable(s, waker).1 == Pending <==> s.packets == [] && s.state == Running
    ensures PollReadable(s, waker).1 == ReadError(Terminal(s.state)) <==> s.packets == [] && s.state != Running
  {
  }

  // ----- no lost wake-up for the single consumer -----

  /** The consumer: asleep on a waker, possibly woken since. */
  datatype Consumer = Awake | Asleep(waker: nat, woken: bool)

  datatype Event = Run | Halt | Fault | Push(packet: nat) | Take | Poll(waker: nat) | Abandon

  function Apply(s: Shared, c: Consumer, e: Event): (Shared, Consumer) {
    var alarmed := if c.Asleep? && s.waiter == Some(c.waker) then c.(woken := true) else c;
    match e
    case Run => (SetRunning(s), c)
    case Halt => (SetStopped(s), alarmed)
    case Fault => (SetFaulted(s), alarmed)
    case Push(packet) => (PushPacket(s, packet), alarmed)
    case Take => (TryRecv(s).0, c)
    case Poll(waker) =>
      var (s', ready) := PollReadable(s, waker);
      (s', if ready == Pending then Asleep(waker, false) else Awake)
    case Abandon => (s, Awake)
  }

  /** A sleeping consumer that was not woken is the registered waiter. */
  ghost predicate Watched(s: Shared, c: Consumer) {
    NothingMissed(s) && (c.Asleep? && !c.woken ==> s.waiter == Some(c.waker))
  }

  lemma StepKeeps(s: Shared, c: Consumer, e: Event)
    requires Watched(s, c)
    ensures var (s', c') := Apply(s, c, e); Watched(s', c')
  {
  }

  ghost predicate IsRun(s: Shared, c: Consumer, events: seq<Event>, s': Shared, c': Consumer)
    decreases |events|
  {
    if |events| == 0 then s == s' && c == c'
    else var (t, d) := Apply(s, c, events[0]); IsRun(t, d, events[1..], s', c')
  }

  /** The state set last. */
  function LastSet(state: RxState, events: seq<Event>): RxState
    decreases |events|
  {
    if |events| == 0 then state
    else
      var set1 := match events[0]
                  case Run => Running
                  case Halt => Stopped
                  case Fault => Faulted
                  case _ => state;
      LastSet(set1, events[1..])
  }

  /** In every run the state is the one set last, so a receive that finds nothing reports that. */
  lemma {:induction false} StateIsLastSet(s: Shared, c: Consumer, events: seq<Event>, s': Shared, c': Consumer)
    requires IsRun(s, c, events, s', c')
    ensures s'.state == LastSet(s.state, events)
    ensures s'.packets == [] ==>
              TryRecv(s').1 == Failed(if LastSet(s.state, events) == Running then WouldBlock else Terminal(LastSet(s.state, events)))
    decreases |events|
  {
    if |events| > 0 {
      var (t, d) := Apply(s, c, events[0]);
      StateIsLastSet(t, d, events[1..], s', c');
    }
  }

  /** In every reachable state a consumer that sleeps unwoken is registered, the queue is empty and
      the state is Running: nothing it waits for has happened. */
  lemma {:induction false} NoLostWakeup(s: Shared, c: Consumer, events: seq<Event>, s': Shared, c': Consumer)
    requires Watched(s, c) && IsRun(s, c, events, s', c')
    ensures NothingMissed(s')
    ensures c'.Asleep? && !c'.woken ==> s'.waiter == Some(c'.waker) && s'.packets == [] && s'.state == Running
    decreases |events|
  {
    if |events| > 0 {
      StepKeeps(s, c, events[0]);
      var (t, d) := Apply(s, c, events[0]);
      NoLostWakeup(t, d, events[1..], s', c');
    }
  }
}

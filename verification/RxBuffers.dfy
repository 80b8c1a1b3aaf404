/**
 Where each receive buffer is, in every interleaving of kernel reads, completions, detaches and
 drops: published in the ring, in an unreaped completion, or behind a live packet.
 */
module RxBuffers {
  import Bits
  import opened Common
  import opened RxRing

  /** `data` is what the kernel wrote, kept as history. */
  datatype Completion = Completion(bid: nat, len: nat, data: seq<Byte>)

  datatype PacketBytes = Owned(bytes: seq<Byte>) | Borrowed(bid: nat, len: nat)

  /** `recycle` is the buffer the packet still has to give back. */
  datatype Packet = Packet(bytes: PacketBytes, recycle: seq<nat>, data: seq<Byte>)

  /** `gone` holds the buffers that will not come back: rejected completions, and packets freed
      after the ring was deactivated. */
  datatype Plane = Plane(
    ring: Ring, published: nat, consumed: nat, mem: seq<seq<Byte>>,
    cq: seq<Completion>, packets: seq<Packet>, gone: multiset<nat>)

  // ----- where the buffers are -----

  /** The entry for publication number c, and the buffer id in it. */
  function Entry(r: Ring, c: nat): Desc
    requires 0 < r.n == |r.descs|
  {
    r.descs[Slot(r.n, c)]
  }

  function EntryId(r: Ring, c: nat): nat
    requires 0 < r.n == |r.descs|
  {
    Entry(r, c).bid
  }

  /** The buffers published and not yet consumed, in ring order. */
  function Window(p: Plane): (r: seq<nat>)
    requires p.consumed <= p.published && 0 < p.ring.n == |p.ring.descs|
    ensures |r| == p.published - p.consumed
  {
    seq<nat>(p.published - p.consumed, (j: nat) => EntryId(p.ring, p.consumed + j))
  }

  function CompletionIds(cq: seq<Completion>): (r: seq<nat>)
    ensures |r| == |cq|
  {
    seq(|cq|, i requires 0 <= i < |cq| => cq[i].bid)
  }

  function LiveIds(packets: seq<Packet>): seq<nat> {
    if |packets| == 0 then [] else packets[0].recycle + LiveIds(packets[1..])
  }

  function AllIds(n: nat): (r: seq<nat>)
    ensures |r| == n
  {
    seq(n, i requires 0 <= i < n => i)
  }

  /** `Packet::as_bytes`. */
  function AsBytes(p: Plane, packet: Packet): seq<Byte>
    requires packet.bytes.Borrowed? ==> packet.bytes.bid < |p.mem| && packet.bytes.len <= |p.mem[packet.bytes.bid]|
  {
    match packet.bytes
    case Owned(bytes) => bytes
    case Borrowed(bid, len) => p.mem[bid][..len]
  }

  // ----- the invariant -----

  /** Every entry the kernel may still consume shows the whole of its own buffer. */
  ghost predicate Addressed(p: Plane)
    requires 0 < p.ring.n == |p.ring.descs|
  {
    forall c: nat :: p.consumed <= c < p.published ==> OwnBuffer(Entry(p.ring, c), p.ring.bufferLen)
  }

  ghost predicate Shaped(p: Plane, k: nat) {
    && PowerOfTwo(p.ring.n, k) && |p.ring.descs| == |p.mem| == p.ring.n
    && (forall b :: 0 <= b < |p.mem| ==> |p.mem[b]| == p.ring.bufferLen)
    && p.consumed <= p.published
    && p.ring.tail == p.published % U16_SIZE
    && p.ring.descs[0].resv == p.ring.tail
    && Addressed(p)
  }

  /** Every buffer id is accounted for exactly once. */
  ghost predicate Conserved(p: Plane)
    requires p.consumed <= p.published && 0 < p.ring.n == |p.ring.descs|
  {
    multiset(Window(p)) + multiset(CompletionIds(p.cq)) + multiset(LiveIds(p.packets)) + p.gone
    == multiset(AllIds(p.ring.n))
  }

  ghost predicate Intact(p: Plane, bid: nat, len: nat, data: seq<Byte>) {
    bid < |p.mem| && len <= |p.mem[bid]| && p.mem[bid][..len] == data
  }

  /** A packet either borrows the buffer it has to give back, or owns its bytes. */
  ghost predicate PacketOk(p: Plane, packet: Packet) {
    match packet.bytes
    case Owned(bytes) => packet.recycle == [] && bytes == packet.data
    case Borrowed(bid, len) => packet.recycle == [bid] && Intact(p, bid, len, packet.data)
  }

  ghost predicate Inv(p: Plane, k: nat) {
    && Shaped(p, k)
    && Conserved(p)
    && (forall c :: c in p.cq ==> Intact(p, c.bid, c.len, c.data))
    && (forall q :: q in p.packets ==> PacketOk(p, q))
  }

  // ----- steps -----

  datatype Event =
    | KernelRead(data: seq<Byte>)   // the kernel fills the next published buffer
    | Reap                          // the oldest completion becomes a packet
    | Reject(count: nat)            // ... or is refused (missing id, too short), and the rest of those collected with it are lost
    | Detach(i: nat)
    | Drop(i: nat)
    | Deactivate

  predicate Enabled(p: Plane, e: Event)
    requires p.consumed <= p.published && 0 < p.ring.n == |p.ring.descs|
  {
    match e
    case KernelRead(data) => p.consumed < p.published && |data| <= Entry(p.ring, p.consumed).len
    case Reap => |p.cq| > 0
    case Reject(count) => 0 < count <= |p.cq|
    case Detach(i) => i < |p.packets|
    case Drop(i) => i < |p.packets|
    case Deactivate => true
  }

  /** Giving a packet's buffer back; a packet gives back at most one. */
  function GiveBack(p: Plane, recycle: seq<nat>): Plane
    requires 0 < p.ring.n == |p.ring.descs| && MaskedSlot(p.ring, p.ring.tail) < p.ring.n
  {
    if |recycle| == 0 then p
    else if !p.ring.active then p.(gone := p.gone + multiset{recycle[0]})
    else p.(ring := Recycle(p.ring, recycle[0]), published := p.published + 1)
  }

  /** The kernel writes where the entry points and reports the id that is in it. */
  function Read(p: Plane, data: seq<Byte>): Plane
    requires p.consumed < p.published && 0 < p.ring.n == |p.ring.descs|
    requires var at := Entry(p.ring, p.consumed).addr; at < |p.mem| && |data| <= |p.mem[at]|
  {
    var e := Entry(p.ring, p.consumed);
    p.(consumed := p.consumed + 1, mem := p.mem[e.addr := data + p.mem[e.addr][|data|..]],
       cq := p.cq + [Completion(e.bid, |data|, data)])
  }

  function NewPacket(c: Completion): Packet { Packet(Borrowed(c.bid, c.len), [c.bid], c.data) }

  /** `Packet::detach`: copy first, then give the buffer back. */
  function Detached(p: Plane, packet: Packet): Packet
    requires packet.bytes.Borrowed? ==> packet.bytes.bid < |p.mem| && packet.bytes.len <= |p.mem[packet.bytes.bid]|
  {
    packet.(bytes := Owned(AsBytes(p, packet)), recycle := [])
  }

  function Apply(p: Plane, k: nat, e: Event): Plane
    requires Inv(p, k) && Enabled(p, e)
  {
    TailInRange(p, k);
    match e
    case KernelRead(data) => WindowIds(p, k); Read(p, data)
    case Reap => p.(cq := p.cq[1..], packets := p.packets + [NewPacket(p.cq[0])])
    case Reject(count) => p.(cq := p.cq[count..], gone := p.gone + multiset(CompletionIds(p.cq[..count])))
    case Detach(i) =>
      assert p.packets[i] in p.packets;
      GiveBack(p.(packets := p.packets[i := Detached(p, p.packets[i])]), p.packets[i].recycle)
    case Drop(i) => GiveBack(p.(packets := p.packets[..i] + p.packets[i + 1..]), p.packets[i].recycle)
    case Deactivate => p.(ring := p.ring.(active := false))
  }

  lemma TailInRange(p: Plane, k: nat)
    requires Shaped(p, k)
    ensures p.ring.n > 0 && MaskedSlot(p.ring, p.ring.tail) == Slot(p.ring.n, p.published) < p.ring.n
  {
    hide Bits.And, Bits.Pow2, Slot;
    MaskedTailIsCounter(p.ring, k, p.published);
  }

  /** Ids in the window are real buffers. */
  lemma WindowIds(p: Plane, k: nat)
    requires Inv(p, k) && p.consumed < p.published
    ensures var bid := EntryId(p.ring, p.consumed);
            && bid < |p.mem| && |p.mem[bid]| == p.ring.bufferLen && Window(p)[0] == bid
            && OwnBuffer(Entry(p.ring, p.consumed), p.ring.bufferLen)
  {
    hide Slot, Bits.Pow2;
    var bid := EntryId(p.ring, p.consumed);
    assert Window(p)[0] == bid;
    assert bid in multiset(Window(p));
    assert bid in multiset(AllIds(p.ring.n));
    assert bid in AllIds(p.ring.n);
  }

  // ----- ids are in at most one place -----

  /** Every id occurs once among the ids of n buffers. */
  lemma {:induction false} AllIdsOnce(n: nat, b: nat)
    ensures multiset(AllIds(n))[b] == if b < n then 1 else 0
    decreases n
  {
    if n == 0 {
      assert AllIds(n) == [];
    } else {
      AllIdsOnce(n - 1, b);
      assert AllIds(n) == AllIds(n - 1) + [n - 1];
    }
  }

  lemma {:induction false} LiveConcat(a: seq<Packet>, b: seq<Packet>)
    ensures LiveIds(a + b) == LiveIds(a) + LiveIds(b)
    decreases |a|
  {
    if |a| == 0 {
      assert a + b == b;
    } else {
      assert (a + b)[1..] == a[1..] + b;
      LiveConcat(a[1..], b);
    }
  }

  /** Replacing packet i, seen apart from the others. */
  lemma LiveReplace(packets: seq<Packet>, i: nat, q: Packet)
    requires i < |packets|
    ensures multiset(LiveIds(packets[i := q]))
            == multiset(LiveIds(packets[..i] + packets[i + 1..])) + multiset(q.recycle)
  {
    LiveConcat(packets[..i], packets[i + 1..]);
    assert packets[i := q] == packets[..i] + ([q] + packets[i + 1..]);
    LiveConcat(packets[..i], [q] + packets[i + 1..]);
    assert ([q] + packets[i + 1..])[1..] == packets[i + 1..];
  }

  lemma LiveSplit(packets: seq<Packet>, i: nat)
    requires i < |packets|
    ensures multiset(LiveIds(packets))
            == multiset(LiveIds(packets[..i] + packets[i + 1..])) + multiset(packets[i].recycle)
  {
    LiveReplace(packets, i, packets[i]);
    assert packets[i := packets[i]] == packets;
  }

  lemma TakeOut(window: multiset<nat>, cq: multiset<nat>, live: multiset<nat>, rest: multiset<nat>, gone: multiset<nat>,
                taken: multiset<nat>)
    requires live == rest + taken
    ensures window + cq + rest + gone + taken == window + cq + live + gone
  {
  }

  /** A buffer is in at most one place, and in exactly one while nothing is gone. */
  lemma OnePlace(p: Plane, k: nat, b: nat)
    requires Inv(p, k) && b < p.ring.n
    ensures multiset(Window(p))[b] + multiset(CompletionIds(p.cq))[b] + multiset(LiveIds(p.packets))[b] + p.gone[b] == 1
    ensures p.gone == multiset{} ==>
              multiset(Window(p))[b] + multiset(CompletionIds(p.cq))[b] + multiset(LiveIds(p.packets))[b] == 1
  {
    hide Window, CompletionIds, LiveIds, AllIds, Bits.Pow2;
    AllIdsOnce(p.ring.n, b);
    assert (multiset(Window(p)) + multiset(CompletionIds(p.cq)) + multiset(LiveIds(p.packets)) + p.gone)[b]
           == multiset(AllIds(p.ring.n))[b];
  }

  // ----- every step keeps the invariant -----

  /** A buffer still in the window is in no completion and behind no packet. */
  lemma WindowIsApart(p: Plane, k: nat)
    requires Inv(p, k) && p.consumed < p.published
    ensures forall c :: c in p.cq ==> c.bid != EntryId(p.ring, p.consumed)
    ensures forall q :: q in p.packets && q.bytes.Borrowed? ==> q.bytes.bid != EntryId(p.ring, p.consumed)
  {
    hide Bits.Pow2, Slot, AllIds;
    WindowIds(p, k);
    var bid := EntryId(p.ring, p.consumed);
    OnePlace(p, k, bid);
    assert bid in multiset(Window(p));
    forall c | c in p.cq
      ensures c.bid != bid
    {
      var i :| 0 <= i < |p.cq| && p.cq[i] == c;
      assert CompletionIds(p.cq)[i] == c.bid;
      assert c.bid in multiset(CompletionIds(p.cq));
    }
    forall q | q in p.packets && q.bytes.Borrowed?
      ensures q.bytes.bid != bid
    {
      assert PacketOk(p, q);
      var i :| 0 <= i < |p.packets| && p.packets[i] == q;
      LiveSplit(p.packets, i);
      assert q.bytes.bid in multiset(q.recycle);
      assert q.bytes.bid in multiset(LiveIds(p.packets));
    }
  }

  lemma ReadKeeps(p: Plane, k: nat, data: seq<Byte>)
    requires Inv(p, k) && p.consumed < p.published && |data| <= Entry(p.ring, p.consumed).len
    ensures Inv(Apply(p, k, KernelRead(data)), k)
    ensures forall q :: q in p.packets ==> PacketOk(Apply(p, k, KernelRead(data)), q)
  {
    hide Bits.Pow2, Slot, AllIds, LiveIds;
    WindowIds(p, k);
    WindowIsApart(p, k);
    var p' := Apply(p, k, KernelRead(data));
    var bid := EntryId(p.ring, p.consumed);
    assert Window(p) == [bid] + Window(p');
    assert CompletionIds(p'.cq) == CompletionIds(p.cq) + [bid];
    assert p'.mem[bid][..|data|] == data;
    forall q | q in p.packets
      ensures PacketOk(p', q)
    {
      assert PacketOk(p, q);
    }
  }

  /** Handing the next published buffer back to the ring appends it to the window: no descriptor the
      kernel has not consumed yet is overwritten. */
  lemma RecycleAppends(p: Plane, k: nat, bid: nat)
    requires Shaped(p, k) && p.ring.active && p.published - p.consumed < p.ring.n
    ensures TailOk(p, k)
    ensures var p' := GiveBack(p, [bid]); Shaped(p', k) && Window(p') == Window(p) + [bid]
  {
    hide Bits.Pow2, Slot, MaskedSlot;
    TailInRange(p, k);
    var p' := GiveBack(p, [bid]);
    NextTail(p.published, 1);
    var at := Slot(p.ring.n, p.published);
    forall c: nat | p.consumed <= c < p.published
      ensures EntryId(p'.ring, c) == EntryId(p.ring, c)
      ensures OwnBuffer(Entry(p'.ring, c), p.ring.bufferLen)
    {
      SlotsDiffer(p.ring.n, c, p.published);
      assert OwnBuffer(Entry(p.ring, c), p.ring.bufferLen);
    }
    assert EntryId(p'.ring, p.published) == bid && OwnBuffer(Entry(p'.ring, p.published), p.ring.bufferLen);
  }

  ghost predicate TailOk(p: Plane, k: nat) {
    0 < p.ring.n == |p.ring.descs| && MaskedSlot(p.ring, p.ring.tail) < p.ring.n
  }

  /** Everything but the buffers in `recycle` is accounted for. */
  ghost predicate Missing(p: Plane, recycle: seq<nat>)
    requires p.consumed <= p.published && 0 < p.ring.n == |p.ring.descs|
  {
    multiset(Window(p)) + multiset(CompletionIds(p.cq)) + multiset(LiveIds(p.packets)) + p.gone + multiset(recycle)
    == multiset(AllIds(p.ring.n))
  }

  lemma GiveBackConserves(p: Plane, k: nat, recycle: seq<nat>)
    requires Shaped(p, k) && Missing(p, recycle) && |recycle| <= 1
    ensures TailOk(p, k)
    ensures var p' := GiveBack(p, recycle); Shaped(p', k) && Conserved(p')
  {
    hide Bits.Pow2, Slot, LiveIds, Window, Recycle, MaskedSlot;
    TailInRange(p, k);
    if |recycle| == 1 {
      assert recycle == [recycle[0]];
      if p.ring.active {
        assert |multiset(Window(p)) + multiset(CompletionIds(p.cq)) + multiset(LiveIds(p.packets)) + p.gone
                + multiset(recycle)| == p.ring.n;
        RecycleAppends(p, k, recycle[0]);
      } else {
        WindowOfRing(p, GiveBack(p, recycle));
      }
    }
  }

  lemma WindowOfRing(p: Plane, p': Plane)
    requires p.consumed <= p.published && 0 < p.ring.n == |p.ring.descs|
    requires p'.ring == p.ring && p'.consumed == p.consumed && p'.published == p.published
    ensures Window(p') == Window(p)
  {
  }

  /** Packets and completions depend on the buffer memory alone. */
  lemma SameMemory(p: Plane, p': Plane, packets: seq<Packet>, cq: seq<Completion>)
    requires p'.mem == p.mem
    requires forall q :: q in packets ==> PacketOk(p, q)
    requires forall c :: c in cq ==> Intact(p, c.bid, c.len, c.data)
    ensures forall q :: q in packets ==> PacketOk(p', q)
    ensures forall c :: c in cq ==> Intact(p', c.bid, c.len, c.data)
  {
    forall q | q in packets
      ensures PacketOk(p', q)
    {
      assert PacketOk(p, q);
    }
  }

  /** Taking a buffer away from the packets and giving it back to the ring. */
  lemma RestKeeps(p: Plane, k: nat, packets: seq<Packet>, recycle: seq<nat>)
    requires Inv(p, k) && |recycle| <= 1
    requires multiset(LiveIds(p.packets)) == multiset(LiveIds(packets)) + multiset(recycle)
    requires forall q :: q in packets ==> PacketOk(p, q)
    ensures TailOk(p, k)
    ensures Inv(GiveBack(p.(packets := packets), recycle), k)
  {
    hide Bits.Pow2, Slot, LiveIds, Window, Recycle, MaskedSlot, AllIds, PacketOk, Intact, CompletionIds;
    var rest := p.(packets := packets);
    WindowOfRing(p, rest);
    TakeOut(multiset(Window(p)), multiset(CompletionIds(p.cq)), multiset(LiveIds(p.packets)),
            multiset(LiveIds(packets)), p.gone, multiset(recycle));
    GiveBackConserves(rest, k, recycle);
    SameMemory(p, GiveBack(rest, recycle), packets, p.cq);
  }

  lemma DropKeeps(p: Plane, k: nat, i: nat)
    requires Inv(p, k) && i < |p.packets|
    ensures Inv(Apply(p, k, Drop(i)), k)
  {
    assert p.packets[i] in p.packets;
    assert PacketOk(p, p.packets[i]) && |p.packets[i].recycle| <= 1;
    hide Bits.Pow2, Slot, LiveIds, Window, Recycle, MaskedSlot, AllIds, PacketOk, Intact, CompletionIds, GiveBack;
    var rest := p.packets[..i] + p.packets[i + 1..];
    LiveSplit(p.packets, i);
    forall q | q in rest
      ensures PacketOk(p, q)
    {
      assert q in p.packets;
    }
    RestKeeps(p, k, rest, p.packets[i].recycle);
  }

  /** Detaching keeps the packet's bytes although the buffer goes back to the kernel. */
  lemma DetachKeeps(p: Plane, k: nat, i: nat)
    requires Inv(p, k) && i < |p.packets|
    ensures Inv(Apply(p, k, Detach(i)), k)
    ensures Apply(p, k, Detach(i)).packets == p.packets[i := Packet(Owned(p.packets[i].data), [], p.packets[i].data)]
  {
    hide Bits.Pow2, Slot, LiveIds, Window, Recycle, MaskedSlot, AllIds, PacketOk, Intact, CompletionIds, Detached, GiveBack;
    var packet := p.packets[i];
    assert packet in p.packets;
    DetachedIs(p, packet);
    var detached := Detached(p, packet);
    var rest := p.packets[i := detached];
    LiveSplit(p.packets, i);
    LiveReplace(p.packets, i, detached);
    forall q | q in rest
      ensures PacketOk(p, q)
    {
      assert q == detached || q in p.packets;
    }
    RestKeeps(p, k, rest, packet.recycle);
    GiveBackPackets(p.(packets := rest), packet.recycle);
  }

  lemma GiveBackPackets(p: Plane, recycle: seq<nat>)
    requires 0 < p.ring.n == |p.ring.descs| && MaskedSlot(p.ring, p.ring.tail) < p.ring.n
    ensures GiveBack(p, recycle).packets == p.packets
  {
  }

  lemma DetachedIs(p: Plane, packet: Packet)
    requires PacketOk(p, packet)
    ensures packet.bytes.Borrowed? ==> packet.bytes.bid < |p.mem| && packet.bytes.len <= |p.mem[packet.bytes.bid]|
    ensures Detached(p, packet) == Packet(Owned(packet.data), [], packet.data)
    ensures PacketOk(p, Detached(p, packet)) && |packet.recycle| <= 1
  {
  }

  lemma ReapKeeps(p: Plane, k: nat)
    requires Inv(p, k) && |p.cq| > 0
    ensures Inv(Apply(p, k, Reap), k)
  {
    var c, p' := p.cq[0], Apply(p, k, Reap);
    assert c in p.cq;
    assert PacketOk(p, NewPacket(c));
    assert LiveIds([NewPacket(c)]) == [c.bid];
    hide Bits.Pow2, Slot, Window, AllIds, LiveIds, PacketOk, Intact;
    WindowOfRing(p, p');
    assert CompletionIds(p.cq) == [c.bid] + CompletionIds(p'.cq);
    LiveConcat(p.packets, [NewPacket(c)]);
    SameMemory(p, p', p'.packets, p'.cq);
  }

  lemma RejectKeeps(p: Plane, k: nat, count: nat)
    requires Inv(p, k) && 0 < count <= |p.cq|
    ensures Inv(Apply(p, k, Reject(count)), k)
    ensures Apply(p, k, Reject(count)).gone == p.gone + multiset(CompletionIds(p.cq[..count]))
  {
    hide Bits.Pow2, Slot, Window, AllIds, LiveIds, PacketOk, Intact;
    var p' := Apply(p, k, Reject(count));
    WindowOfRing(p, p');
    assert CompletionIds(p.cq) == CompletionIds(p.cq[..count]) + CompletionIds(p'.cq);
    SameMemory(p, p', p'.packets, p'.cq);
  }

  lemma DeactivateKeeps(p: Plane, k: nat)
    requires Inv(p, k)
    ensures Inv(Apply(p, k, Deactivate), k)
  {
    hide Bits.Pow2, Slot, AllIds, LiveIds;
    var p' := Apply(p, k, Deactivate);
    forall c: nat
      ensures Entry(p'.ring, c) == Entry(p.ring, c) && EntryId(p'.ring, c) == EntryId(p.ring, c)
    {
    }
    assert Window(p') == Window(p);
    forall q | q in p'.packets
      ensures PacketOk(p', q)
    {
      assert PacketOk(p, q);
    }
  }

  lemma StepKeeps(p: Plane, k: nat, e: Event)
    requires Inv(p, k) && Enabled(p, e)
    ensures Inv(Apply(p, k, e), k)
  {
    hide Inv;
    match e {
      case KernelRead(data) => ReadKeeps(p, k, data);
      case Reap => ReapKeeps(p, k);
      case Reject(count) => RejectKeeps(p, k, count);
      case Detach(i) => DetachKeeps(p, k, i);
      case Drop(i) => DropKeeps(p, k, i);
      case Deactivate => DeactivateKeeps(p, k);
    }
  }

  // ----- whole runs -----

  /** After `publish_all` on a new ring. */
  ghost predicate Published(p: Plane, k: nat) {
    && Shaped(p, k) && p.ring.active
    && p.consumed == 0 && p.published == p.ring.n
    && (forall i :: 0 <= i < p.ring.n ==> p.ring.descs[i].bid == i)
    && p.cq == [] && p.packets == [] && p.gone == multiset{}
  }

  lemma StartsWell(p: Plane, k: nat)
    requires Published(p, k)
    ensures Inv(p, k)
  {
    forall j | 0 <= j < p.ring.n
      ensures EntryId(p.ring, j) == j
    {
      SmallCount(p.ring.n, k, j);
    }
    assert Window(p) == AllIds(p.ring.n);
    assert CompletionIds(p.cq) == [] && LiveIds(p.packets) == [];
  }

  ghost predicate IsRun(p: Plane, k: nat, events: seq<Event>, t: Plane)
    requires Inv(p, k)
    decreases |events|
  {
    if |events| == 0 then p == t
    else
      && Enabled(p, events[0])
      && (StepKeeps(p, k, events[0]); IsRun(Apply(p, k, events[0]), k, events[1..], t))
  }

  lemma {:induction false} RunKeeps(p: Plane, k: nat, events: seq<Event>, t: Plane)
    requires Inv(p, k) && IsRun(p, k, events, t)
    ensures Inv(t, k)
    decreases |events|
  {
    hide Inv;
    if |events| > 0 {
      StepKeeps(p, k, events[0]);
      RunKeeps(Apply(p, k, events[0]), k, events[1..], t);
    }
  }

  /** In every run from a freshly published ring, a live packet shows exactly the bytes the kernel
      delivered, and no buffer is in two places. */
  lemma EveryRun(p: Plane, k: nat, events: seq<Event>, t: Plane, b: nat)
    requires Published(p, k) && Inv(p, k) && IsRun(p, k, events, t) && b < t.ring.n
    ensures Shaped(t, k)
    ensures forall q :: q in t.packets ==> PacketOk(t, q) && AsBytes(t, q) == q.data
    ensures multiset(Window(t))[b] + multiset(CompletionIds(t.cq))[b] + multiset(LiveIds(t.packets))[b] + t.gone[b] == 1
  {
    hide Bits.Pow2, Slot, Window, AllIds, LiveIds, Conserved, IsRun;
    RunKeeps(p, k, events, t);
    OnePlace(t, k, b);
    forall q | q in t.packets
      ensures PacketOk(t, q) && AsBytes(t, q) == q.data
    {
      assert PacketOk(t, q);
    }
  }

  /** No completion is rejected and the ring stays active. */
  predicate Undisturbed(events: seq<Event>) {
    forall i :: 0 <= i < |events| ==> !events[i].Reject? && !events[i].Deactivate?
  }

  lemma NothingGoneStep(p: Plane, k: nat, e: Event)
    requires Inv(p, k) && Enabled(p, e) && !e.Reject? && !e.Deactivate?
    requires p.ring.active && p.gone == multiset{}
    ensures Apply(p, k, e).ring.active && Apply(p, k, e).gone == multiset{}
  {
    hide Bits.Pow2, Slot, LiveIds, Window, AllIds, Conserved, Inv, Shaped;
  }

  lemma {:induction false} NothingGone(p: Plane, k: nat, events: seq<Event>, t: Plane)
    requires Inv(p, k) && IsRun(p, k, events, t) && Undisturbed(events)
    requires p.ring.active && p.gone == multiset{}
    ensures t.ring.active && t.gone == multiset{}
    decreases |events|
  {
    hide Inv, Apply;
    if |events| > 0 {
      StepKeeps(p, k, events[0]);
      NothingGoneStep(p, k, events[0]);
      NothingGone(Apply(p, k, events[0]), k, events[1..], t);
    }
  }

  /** While the ring is active and nothing was rejected, every buffer is in exactly one place. */
  lemma ExactlyOnePlace(p: Plane, k: nat, events: seq<Event>, t: Plane, b: nat)
    requires Published(p, k) && Inv(p, k) && IsRun(p, k, events, t) && Undisturbed(events) && b < t.ring.n
    ensures Shaped(t, k)
    ensures multiset(Window(t))[b] + multiset(CompletionIds(t.cq))[b] + multiset(LiveIds(t.packets))[b] == 1
  {
    hide Bits.Pow2, Slot, Window, AllIds, LiveIds, Conserved, IsRun;
    RunKeeps(p, k, events, t);
    NothingGone(p, k, events, t);
    OnePlace(t, k, b);
  }

  /** Detach followed by drop gives the buffer back once: the drop publishes nothing. */
  lemma DetachThenDrop(p: Plane, k: nat, i: nat)
    requires Inv(p, k) && i < |p.packets|
    ensures var d := Apply(p, k, Detach(i));
            && Inv(d, k) && i < |d.packets|
            && Apply(d, k, Drop(i)).published == d.published
            && (p.ring.active ==> d.published == p.published + |p.packets[i].recycle|)
            && Apply(d, k, Drop(i)).gone == d.gone
  {
    hide Bits.Pow2, Slot, LiveIds, Window, MaskedSlot, AllIds, Conserved;
    DetachKeeps(p, k, i);
    assert p.packets[i] in p.packets;
    assert PacketOk(p, p.packets[i]);
  }
}

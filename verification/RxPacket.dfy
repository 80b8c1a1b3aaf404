/** `Packet` of `src/core/packet.rs`: bytes in a ring buffer until the packet is detached or dropped. */
module RxPacket {
  import opened Common
  import opened RxRing
  import Bits
  import RxBuffers
  import Segments
  import GsoSplit

  const VIRTIO_NET_HDR_LEN := 10
  const NEEDS_CSUM := 1
  const GSO_ECN := 0x80

  /** The virtio header is in the machine's byte order, here little-endian. */
  function Native16(low: Byte, high: Byte): (r: nat)
    ensures r < U16_SIZE
  {
    low + 256 * high
  }

  function ParseGsoType(raw: Byte): Segments.GsoType {
    var kind := if raw >= GSO_ECN then raw - GSO_ECN else raw;
    if kind == 0 then Segments.NoGso
    else if kind == 1 then Segments.TcpV4
    else if kind == 4 then Segments.TcpV6
    else if kind == 5 then Segments.UdpL4
    else Segments.Other(raw)
  }

  function ParseOffloadInfo(raw: seq<Byte>): Option<Segments.OffloadInfo> {
    if |raw| < VIRTIO_NET_HDR_LEN then None
    else
      Some(Segments.OffloadInfo(
             ParseGsoType(raw[1]), Native16(raw[4], raw[5]), Native16(raw[2], raw[3]),
             Native16(raw[6], raw[7]), Native16(raw[8], raw[9]), Bits.And(raw[0], NEEDS_CSUM) != 0))
  }

  // ----- the header, as the kernel writes it -----

  function Little16(v: nat): (r: seq<Byte>)
    requires v < U16_SIZE
    ensures |r| == 2
  {
    [v % 256, v / 256]
  }

  /** The values of VIRTIO_NET_HDR_GSO_*. */
  function RawGsoType(t: Segments.GsoType): Byte {
    match t
    case NoGso => 0
    case TcpV4 => 1
    case TcpV6 => 4
    case UdpL4 => 5
    case Other(raw) => raw
  }

  /** `struct virtio_net_hdr`: flags, gso_type, hdr_len, gso_size, csum_start, csum_offset. */
  function VirtioHeader(info: Segments.OffloadInfo, flags: Byte, ecn: bool): seq<Byte>
    requires RawGsoType(info.gsoType) < GSO_ECN || !ecn
  {
    [flags, RawGsoType(info.gsoType) + (if ecn then GSO_ECN else 0)]
    + Little16(info.hdrLen) + Little16(info.gsoSize) + Little16(info.csumStart) + Little16(info.csumOffset)
  }

  /** Every header is read back as it was written; the ECN bit of a known type does not matter, and of
      the flags only NEEDS_CSUM does. */
  lemma HeaderRoundTrip(info: Segments.OffloadInfo, flags: Byte, ecn: bool, payload: seq<Byte>)
    requires info.gsoType.Other? ==> !ecn && RawGsoType(info.gsoType) !in {0, 1, 4, 5, 0x80, 0x81, 0x84, 0x85}
    requires info.needsCsum <==> flags % 2 == 1
    ensures ParseOffloadInfo(VirtioHeader(info, flags, ecn) + payload) == Some(info)
  {
    hide Bits.And;
    Bits.AndLowMask(flags, 1);
    assert Bits.Pow2(1) == 2;
    var raw := VirtioHeader(info, flags, ecn) + payload;
    assert raw[0] == flags && raw[1] == RawGsoType(info.gsoType) + if ecn then GSO_ECN else 0;
    hide Little16;
    Pairs([raw[0], raw[1]], Little16(info.hdrLen), Little16(info.gsoSize), Little16(info.csumStart),
          Little16(info.csumOffset), payload);
    Little16RoundTrip(raw, 2, info.hdrLen);
    Little16RoundTrip(raw, 4, info.gsoSize);
    Little16RoundTrip(raw, 6, info.csumStart);
    Little16RoundTrip(raw, 8, info.csumOffset);
  }

  lemma Pairs(a: seq<Byte>, b: seq<Byte>, c: seq<Byte>, d: seq<Byte>, e: seq<Byte>, rest: seq<Byte>)
    requires |a| == |b| == |c| == |d| == |e| == 2
    ensures var raw := a + b + c + d + e + rest;
            |raw| >= 10 && raw[2..4] == b && raw[4..6] == c && raw[6..8] == d && raw[8..10] == e
  {
    var raw := a + b + c + d + e + rest;
    assert raw[2..4] == b;
    assert raw[4..6] == c;
    assert raw[6..8] == d;
    assert raw[8..10] == e;
  }

  lemma Little16RoundTrip(raw: seq<Byte>, at: nat, v: nat)
    requires v < U16_SIZE && at + 2 <= |raw| && raw[at..at + 2] == Little16(v)
    ensures Native16(raw[at], raw[at + 1]) == v
  {
    assert raw[at] == raw[at..at + 2][0] && raw[at + 1] == raw[at..at + 2][1];
  }

  class Packet {
    var bytes: RxBuffers.PacketBytes
    var recycle: Option<nat>
    /** The offload information once it was asked for or given. */
    var cell: Option<Option<Segments.OffloadInfo>>
    const payloadOffset: nat
    /** The receive buffers, which the kernel writes as well. */
    const memory: array<seq<Byte>>
    const buffers: ProvidedBuffers

    /** A borrowed packet still owes the buffer it shows; a cached parse is the parse of the bytes. */
    ghost predicate Valid()
      reads this, memory, buffers, buffers.ring
    {
      && buffers.Valid() && Shown()
      && (bytes.Borrowed? ==> recycle == Some(bytes.bid))
      && (payloadOffset == VIRTIO_NET_HDR_LEN && cell.Some? ==> cell.value == ParseOffloadInfo(AsBytes()))
    }

    ghost predicate Shown()
      reads this, memory
    {
      bytes.Borrowed? ==> bytes.bid < memory.Length && bytes.len <= |memory[bytes.bid]|
    }

    ghost function AsBytes(): seq<Byte>
      requires Shown()
      reads this, memory
    {
      match bytes
      case Owned(own) => own
      case Borrowed(bid, len) => memory[bid][..len]
    }

    ghost function Info(): Option<Segments.OffloadInfo>
      requires Shown()
      reads this, memory
    {
      if payloadOffset == VIRTIO_NET_HDR_LEN then ParseOffloadInfo(AsBytes())
      else if cell.Some? then cell.value
      else None
    }

    ghost function Payload(): seq<Byte>
      requires Shown()
      reads this, memory
    {
      if |AsBytes()| < payloadOffset then [] else AsBytes()[payloadOffset..]
    }

    /** A packet read with its virtio header shows what the header says and the packet behind it. */
    lemma HeaderAndPayload(info: Segments.OffloadInfo, flags: Byte, ecn: bool, packet: seq<Byte>)
      requires Shown() && payloadOffset == VIRTIO_NET_HDR_LEN
      requires info.gsoType.Other? ==> !ecn && RawGsoType(info.gsoType) !in {0, 1, 4, 5, 0x80, 0x81, 0x84, 0x85}
      requires info.needsCsum <==> flags % 2 == 1
      requires AsBytes() == VirtioHeader(info, flags, ecn) + packet
      ensures Info() == Some(info) && Payload() == packet
    {
      HeaderRoundTrip(info, flags, ecn, packet);
      assert |VirtioHeader(info, flags, ecn)| == VIRTIO_NET_HDR_LEN;
    }

    constructor FromRing(bid: nat, len: nat, payloadOffset: nat, memory: array<seq<Byte>>, buffers: ProvidedBuffers)
      requires buffers.Valid() && bid < memory.Length && len <= |memory[bid]|
      ensures Valid() && AsBytes() == memory[bid][..len] && recycle == Some(bid)
      ensures this.memory == memory && this.buffers == buffers && this.payloadOffset == payloadOffset
    {
      this.bytes, this.recycle, cell := RxBuffers.Borrowed(bid, len), Some(bid), None;
      this.payloadOffset, this.memory, this.buffers := payloadOffset, memory, buffers;
    }

    /** `offload_info`: parsed at the first call, remembered afterwards. */
    method OffloadInfo() returns (r: Option<Segments.OffloadInfo>)
      requires Valid()
      modifies this`cell
      ensures Valid() && r == Info() == old(Info()) && cell == Some(r)
    {
      if cell.None? {
        if payloadOffset != VIRTIO_NET_HDR_LEN {
          cell := Some(None);
        } else {
          var raw := match bytes case Owned(own) => own case Borrowed(bid, len) => memory[bid][..len];
          cell := Some(ParseOffloadInfo(raw));
        }
      }
      r := cell.value;
    }

    /** Gives the buffer back if it is still owed. From then on the kernel may write into it. */
    method RecycleNow()
      requires buffers.Valid()
      modifies this`recycle, memory, buffers`tail, buffers`published, buffers.ring
      ensures buffers.Valid() && recycle == None
      ensures forall b :: 0 <= b < memory.Length && old(recycle) != Some(b) ==> memory[b] == old(memory[b])
      ensures old(recycle).Some? ==> MaskedSlot(old(buffers.Contents()), old(buffers.tail)) == Slot(buffers.n, old(buffers.published))
      ensures old(recycle).Some? ==> buffers.Contents() == Recycle(old(buffers.Contents()), old(recycle).value)
      ensures old(recycle).None? ==> buffers.Contents() == old(buffers.Contents())
      ensures buffers.published == old(buffers.published) + (if old(recycle).Some? && buffers.active then 1 else 0)
    {
      if recycle.Some? {
        var bid := recycle.value;
        recycle := None;
        buffers.RecycleBuffer(bid);
        var data: seq<Byte> := *;
        if bid < memory.Length {
          memory[bid] := data;
        }
      }
    }

    /** The bytes are copied before the buffer goes back, so nothing a reader of the packet sees changes. */
    method Detach()
      requires Valid()
      modifies this`bytes, this`recycle, memory, buffers`tail, buffers`published, buffers.ring
      ensures Valid() && bytes.Owned? && recycle == None
      ensures forall b :: 0 <= b < memory.Length && old(recycle) != Some(b) ==> memory[b] == old(memory[b])
      ensures AsBytes() == old(AsBytes()) && Info() == old(Info()) && Payload() == old(Payload())
      ensures buffers.published == old(buffers.published) + (if old(recycle).Some? && buffers.active then 1 else 0)
    {
      if bytes.Borrowed? {
        bytes := RxBuffers.Owned(memory[bytes.bid][..bytes.len]);
      }
      RecycleNow();
    }

    /** `split_into`: without offload information an error, otherwise the split of the payload. */
    method SplitInto(out: seq<array<Byte>>, sizes: array<nat>, offset: nat)
      returns (r: Segments.Result<nat>)
      requires Valid() && |Payload()| <= 0x1_0000_0000
      requires Info().Some? && GsoSplit.Segmented(Info().value) ==> GsoSplit.Acceptable(Payload(), Info().value)
      requires forall i, j :: 0 <= i < j < |out| ==> out[i] != out[j]
      requires forall i :: 0 <= i < |out| ==> out[i] as object != sizes
      modifies this`cell, sizes, out
      ensures Valid() && AsBytes() == old(AsBytes()) && Info() == old(Info()) && Payload() == old(Payload())
      ensures Info().None? ==> r == Segments.Err(Segments.NoOffloadInfo)
      ensures Info().Some? ==> (r.Ok? <==> GsoSplit.CanSplit(Payload(), Info().value, out, sizes.Length, offset))
      ensures r.Ok? ==>
                && Info().Some?
                && GsoSplit.SplitDone(Payload(), Info().value, old(GsoSplit.Slots(out)), GsoSplit.Slots(out),
                                      sizes[..], offset, r.value)
    {
      hide GsoSplit.SplitDone, GsoSplit.CanSplit, GsoSplit.Acceptable, ParseOffloadInfo;
      var info := OffloadInfo();
      if info.None? {
        return Segments.Err(Segments.NoOffloadInfo);
      }
      var raw := match bytes case Owned(own) => own case Borrowed(bid, len) => memory[bid][..len];
      var payload := if |raw| < payloadOffset then [] else raw[payloadOffset..];
      r := GsoSplit.SplitInto(payload, info.value, out, sizes, offset);
    }

    /** Detach, any reuse of the buffers by the kernel, and drop: the packet still shows what it
        showed, and its buffer was given back once. */
    method DetachReuseDrop(writes: seq<(nat, seq<Byte>)>)
      requires Valid() && forall w :: w in writes ==> w.0 < memory.Length
      modifies this, memory, buffers`tail, buffers`published, buffers.ring
      ensures Valid() && AsBytes() == old(AsBytes()) && Info() == old(Info()) && Payload() == old(Payload())
      ensures buffers.published == old(buffers.published) + (if old(recycle).Some? && buffers.active then 1 else 0)
    {
      Detach();
      ghost var published := buffers.published;
      for i := 0 to |writes|
        invariant Valid() && bytes.Owned? && recycle == None && buffers.published == published
        invariant AsBytes() == old(AsBytes()) && Info() == old(Info()) && Payload() == old(Payload())
      {
        memory[writes[i].0] := writes[i].1;
      }
      RecycleNow();
    }
  }
}

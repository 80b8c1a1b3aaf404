/**
 What the receivers of a split get, told from the bytes of packets alone: each segment is accepted,
 and the payloads behind the segments' own headers are the payload behind the packet's own headers.
 */
module Receiver {
  import opened Common
  import opened Checksum
  import opened Segments
  import opened SegmentProofs
  import opened GsoSplit

  // ----- headers, read from the packet itself -----

  function IpHdrLen(p: seq<Byte>): nat
    requires |p| > 0
  {
    if Version(p[0]) == 6 then 40 else Ihl(p[0])
  }

  function ProtocolByte(p: seq<Byte>): Byte
    requires |p| >= 20
  {
    if Version(p[0]) == 6 then p[6] else p[9]
  }

  /** The first byte behind the transport header: eight bytes of UDP, or the data offset of TCP. */
  function HeaderEnd(p: seq<Byte>): nat
    requires |p| >= 20 && (ProtocolByte(p) == TCP ==> IpHdrLen(p) + 12 < |p|)
  {
    if ProtocolByte(p) == TCP then IpHdrLen(p) + p[IpHdrLen(p) + 12] / 16 * 4 else IpHdrLen(p) + 8
  }

  predicate HasHeaders(p: seq<Byte>) {
    && |p| >= 20 && (ProtocolByte(p) == TCP ==> IpHdrLen(p) + 12 < |p|)
    && HeaderEnd(p) <= |p|
  }

  function PayloadOf(p: seq<Byte>): seq<Byte>
    requires HasHeaders(p)
  {
    p[HeaderEnd(p)..]
  }

  // ----- sound packets, in terms of bytes and metadata -----

  predicate IsTcp(info: OffloadInfo) { info.gsoType == TcpV4 || info.gsoType == TcpV6 }

  /** Metadata and packet agree: IP version and protocol are those of the gso type, and the checksum
      start is the end of the IP header. */
  predicate Agrees(p: seq<Byte>, info: OffloadInfo) {
    && |p| >= 20 && IpHdrLen(p) >= 20 && info.csumStart == IpHdrLen(p)
    && match info.gsoType
       case TcpV4 => Version(p[0]) == 4 && p[9] == TCP
       case TcpV6 => Version(p[0]) == 6 && p[6] == TCP
       case UdpL4 => (Version(p[0]) == 4 && p[9] == UDP) || (Version(p[0]) == 6 && p[6] == UDP)
       case _ => false
  }

  /** The checksum field lies in the transport header, word aligned, apart from the fields that the split
      rewrites and from the data offset. */
  predicate FieldApart(p: seq<Byte>, info: OffloadInfo)
    requires HasHeaders(p)
  {
    && info.csumStart + info.csumOffset + 2 <= HeaderEnd(p)
    && info.csumOffset % 2 == 0 && info.csumOffset != 4
    && (IsTcp(info) ==> info.csumOffset != 6 && info.csumOffset != 12)
  }

  predicate Sound(p: seq<Byte>, info: OffloadInfo) {
    && Agrees(p, info) && HasHeaders(p) && FieldApart(p, info)
    && info.gsoSize > 0
    && (IsTcp(info) ==> HeaderEnd(p) >= info.csumStart + 20)
  }

  /** A sound packet is accepted, and cut behind its own headers. */
  lemma SoundPlan(p: seq<Byte>, info: OffloadInfo)
    requires Sound(p, info)
    ensures Acceptable(p, info) && MakePlan(p, info).Ok?
    ensures var plan := MakePlan(p, info).value;
            && plan.sh == Shape(Version(p[0]) == 6, ProtocolByte(p), HeaderEnd(p)) && plan.info == info
            && plan.count == SegmentCount(|PayloadOf(p)|, info.gsoSize)
            && FieldFree(plan.sh, info) && |plan.z| == |p|
            && (plan.sh.protocol == TCP <==> IsTcp(info))
  {
    hide Cleared, SegmentCount;
  }

  // ----- each segment -----

  /** A header byte that no rewrite touches is the packet's. */
  lemma ByteKept(p: seq<Byte>, info: OffloadInfo, i: nat, at: nat)
    requires Sound(p, info) && Acceptable(p, info) && MakePlan(p, info).Ok? && i < MakePlan(p, info).value.count
    requires at == 0 || (Version(p[0]) == 6 && at == 6) || (Version(p[0]) == 4 && at == 9)
             || (IsTcp(info) && at == info.csumStart + 12)
    ensures at < |MakePlan(p, info).value.Part(i)| && MakePlan(p, info).value.Part(i)[at] == p[at]
  {
    SoundPlan(p, info);
    PlanIsValid(p, info);
    hide Segment, ParseShape, Cleared, SegmentCount, Skip, MakePlan, Version, Ihl;
    var plan := MakePlan(p, info).value;
    assert Ready(plan.z, plan.sh, info, i);
    OtherHeaderBytesKept(plan.z, plan.sh, info, i, at);
    PlanIsCleared(p, info);
    ClearedElsewhere(p, plan.sh, info, at);
  }

  lemma PlanIsCleared(p: seq<Byte>, info: OffloadInfo)
    requires Acceptable(p, info) && MakePlan(p, info).Ok?
    ensures var plan := MakePlan(p, info).value;
            WellFormed(plan.sh, info) && plan.sh.hdrLen <= |p| && plan.z == Cleared(p, plan.sh, info)
  {
    hide Cleared;
  }

  lemma SameHeaders(p: seq<Byte>, info: OffloadInfo, part: seq<Byte>)
    requires Sound(p, info) && |part| >= HeaderEnd(p)
    requires part[0] == p[0] && part[if Version(p[0]) == 6 then 6 else 9] == p[if Version(p[0]) == 6 then 6 else 9]
    requires IsTcp(info) ==> part[info.csumStart + 12] == p[info.csumStart + 12]
    ensures HasHeaders(part) && HeaderEnd(part) == HeaderEnd(p) && PayloadOf(part) == part[HeaderEnd(p)..]
  {
    hide Version, Ihl;
  }

  /** The segment has the headers of the packet. */
  lemma PartHeaders(p: seq<Byte>, info: OffloadInfo, i: nat)
    requires Sound(p, info) && Acceptable(p, info) && MakePlan(p, info).Ok? && i < MakePlan(p, info).value.count
    ensures var part := MakePlan(p, info).value.Part(i);
            && |part| >= HeaderEnd(p) && HasHeaders(part) && HeaderEnd(part) == HeaderEnd(p)
            && PayloadOf(part) == part[HeaderEnd(p)..]
  {
    hide MakePlan, Plan.Part, Plan.Len, Version, Ihl, Acceptable, Segment, Skip, HasSegment, ChunkLen;
    PartLength(p, info, i);
    assert Version(p[0]) == 4 || Version(p[0]) == 6;
    ByteKept(p, info, i, 0);
    ByteKept(p, info, i, if Version(p[0]) == 6 then 6 else 9);
    if IsTcp(info) {
      ByteKept(p, info, i, info.csumStart + 12);
    }
    SameHeaders(p, info, MakePlan(p, info).value.Part(i));
  }

  lemma PartLength(p: seq<Byte>, info: OffloadInfo, i: nat)
    requires Sound(p, info) && Acceptable(p, info) && MakePlan(p, info).Ok? && i < MakePlan(p, info).value.count
    ensures var plan := MakePlan(p, info).value;
            && Ready(plan.z, plan.sh, info, i) && |plan.Part(i)| == plan.Len(i) > HeaderEnd(p)
            && plan.Part(i) == Segment(plan.z, plan.sh, info, i)
  {
    SoundPlan(p, info);
    PlanIsValid(p, info);
    hide Segment, ParseShape, Cleared, SegmentCount, Skip;
    var plan := MakePlan(p, info).value;
    assert Ready(plan.z, plan.sh, info, i);
  }

  /** A receiver that sees nothing but a segment accepts it. */
  lemma SegmentsAccepted(p: seq<Byte>, info: OffloadInfo, i: nat)
    requires Sound(p, info) && Acceptable(p, info) && MakePlan(p, info).Ok?
    requires i < MakePlan(p, info).value.count && |MakePlan(p, info).value.Part(i)| <= 0xffff
    ensures Accepts(MakePlan(p, info).value.Part(i))
  {
    SoundPlan(p, info);
    PartLength(p, info, i);
    PlanIsCleared(p, info);
    var plan := MakePlan(p, info).value;
    hide Segment, ParseShape, Cleared, SegmentCount, Skip, MakePlan, Version, Ihl, Accepts, Plan.Part;
    ClearedIsCleared(p, plan.sh, info);
    ClearedElsewhere(p, plan.sh, info, 0);
    ClearedElsewhere(p, plan.sh, info, if plan.sh.v6 then 6 else 9);
    SegmentAccepted(plan.z, plan.sh, info, i);
  }

  // ----- the whole split -----

  /** The payloads behind the headers of segments `from` and later, joined. */
  function Received(parts: nat -> seq<Byte>, from: nat, count: nat): seq<Byte>
    decreases count - from
  {
    if from >= count then []
    else (if HasHeaders(parts(from)) then PayloadOf(parts(from)) else []) + Received(parts, from + 1, count)
  }

  lemma {:induction false} ReceivedSame(f: nat -> seq<Byte>, g: nat -> seq<Byte>, from: nat, count: nat)
    requires forall i: nat :: from <= i < count ==> f(i) == g(i)
    ensures Received(f, from, count) == Received(g, from, count)
    decreases count - from
  {
    hide HasHeaders, PayloadOf;
    if from < count {
      ReceivedSame(f, g, from + 1, count);
    }
  }

  /** What a receiver takes for the payload of segment i is what the split put behind the headers. */
  lemma PartPayload(p: seq<Byte>, info: OffloadInfo, i: nat)
    requires Sound(p, info) && Acceptable(p, info) && MakePlan(p, info).Ok?
    ensures var plan := MakePlan(p, info).value;
            && Splittable(plan.z, plan.sh, info)
            && (i < plan.count <==> HasSegment(|plan.z|, plan.sh, info, i))
            && (i < plan.count ==>
                  && HasHeaders(plan.Part(i))
                  && PayloadOf(plan.Part(i)) == Segment(plan.z, plan.sh, info, i)[plan.sh.hdrLen..])
  {
    var plan := MakePlan(p, info).value;
    SoundPlan(p, info);
    PlanIsValid(p, info);
    hide Segment, ParseShape, Cleared, SegmentCount, Skip, MakePlan, Version, Ihl, HasHeaders, PayloadOf, HasSegment, ChunkLen;
    assert i < plan.count <==> Ready(plan.z, plan.sh, info, i);
    if i < plan.count {
      PartLength(p, info, i);
      PartHeaders(p, info, i);
    }
  }

  lemma {:induction false} ReceivedIsPayloads(p: seq<Byte>, info: OffloadInfo, from: nat)
    requires Sound(p, info) && Acceptable(p, info) && MakePlan(p, info).Ok?
    ensures var plan := MakePlan(p, info).value;
            && Splittable(plan.z, plan.sh, info)
            && Received((i: nat) => plan.Part(i), from, plan.count) == Payloads(plan.z, plan.sh, info, from)
    decreases MakePlan(p, info).value.count - from
  {
    hide Segment, MakePlan, HasHeaders, PayloadOf, HasSegment, Plan.Part, Sound, Acceptable, Splittable;
    PartPayload(p, info, from);
    if from < MakePlan(p, info).value.count {
      ReceivedIsPayloads(p, info, from + 1);
    }
  }

  /** Splitting loses nothing that a receiver would miss: there are as many segments as the payload
      needs, all but the last carry `gsoSize` bytes of it, and joined they carry it all. */
  lemma NothingMissed(p: seq<Byte>, info: OffloadInfo)
    requires Sound(p, info)
    ensures Acceptable(p, info) && MakePlan(p, info).Ok?
    ensures var plan := MakePlan(p, info).value;
            && plan.count == SegmentCount(|PayloadOf(p)|, info.gsoSize)
            && Received((i: nat) => plan.Part(i), 0, plan.count) == PayloadOf(p)
            && forall i: nat :: i + 1 < plan.count ==> |plan.Part(i)| == HeaderEnd(p) + info.gsoSize
  {
    SoundPlan(p, info);
    var plan := MakePlan(p, info).value;
    ReceivedIsPayloads(p, info, 0);
    PayloadSurvives(p, info);
    PlanIsValid(p, info);
    hide Segment, ParseShape, Cleared, SegmentCount, Skip, Received, Payloads, MakePlan;
    NothingLost(plan.z, plan.sh, info);
    forall i: nat | i + 1 < plan.count
      ensures |plan.Part(i)| == HeaderEnd(p) + info.gsoSize
    {
      assert Ready(plan.z, plan.sh, info, i) && Ready(plan.z, plan.sh, info, i + 1);
    }
  }

  /** The packet in the window of output slot i. */
  function Window(after: seq<seq<Byte>>, sizes: seq<nat>, offset: nat, i: nat): seq<Byte> {
    if i < |after| && i < |sizes| && offset + sizes[i] <= |after[i]| then after[i][offset..offset + sizes[i]] else []
  }

  /** A finished slot shows its segment. */
  lemma SlotShows(slot: seq<Byte>, before: seq<Byte>, size: nat, offset: nat, plan: Plan, i: nat)
    requires SlotDone(slot, before, size, offset, plan, i)
    ensures offset + size <= |slot| && slot[offset..offset + size] == plan.Part(i) && |plan.Part(i)| == size
  {
    hide Plan.Part, Plan.Len;
  }

  /** `split_into` on a sound packet, from the caller's point of view: the packets in the slots are as
      many as the payload needs, each that fits into an IP packet is accepted as it stands, and joined
      they carry the payload. */
  lemma SplitDelivers(p: seq<Byte>, info: OffloadInfo, before: seq<seq<Byte>>, after: seq<seq<Byte>>,
                      sizes: seq<nat>, offset: nat, count: nat)
    requires Sound(p, info) && SplitDone(p, info, before, after, sizes, offset, count)
    ensures count == SegmentCount(|PayloadOf(p)|, info.gsoSize)
    ensures Received((i: nat) => Window(after, sizes, offset, i), 0, count) == PayloadOf(p)
    ensures forall i :: 0 <= i < count && sizes[i] <= 0xffff ==> Accepts(Window(after, sizes, offset, i))
  {
    SoundPlan(p, info);
    assert Segmented(info);
    hide Sound, Acceptable, MakePlan, Plan.Part, Plan.Len, Received, Accepts, SegmentCount, HasHeaders, PayloadOf, SlotDone;
    NothingMissed(p, info);
    var plan := MakePlan(p, info).value;
    assert count == plan.count;
    forall i: nat | i < count
      ensures Window(after, sizes, offset, i) == plan.Part(i)
      ensures sizes[i] <= 0xffff ==> Accepts(Window(after, sizes, offset, i))
    {
      SlotShows(after[i], before[i], sizes[i], offset, plan, i);
      if sizes[i] <= 0xffff {
        SegmentsAccepted(p, info, i);
      }
    }
    ReceivedSame((i: nat) => Window(after, sizes, offset, i), (i: nat) => plan.Part(i), 0, count);
  }

  // ----- packets that are not segmented -----

  /** What comes out instead: the packet itself, or the packet with its checksum field completed so that
      the transport bytes and the partial sum in the field fold to all ones. */
  lemma SingleOutput(p: seq<Byte>, info: OffloadInfo)
    ensures !info.needsCsum ==> Single(p, info) == Ok(p)
    ensures info.needsCsum ==> (Single(p, info).Ok? <==> info.csumStart + info.csumOffset + 2 <= |p|)
    ensures info.needsCsum && Single(p, info).Ok? ==>
              var q, at := Single(p, info).value, info.csumStart + info.csumOffset;
              && |q| == |p| && q[..at] == p[..at] && q[at + 2..] == p[at + 2..]
              && (info.csumOffset % 2 == 0 ==> Norm(Get16(p, at) + Sum16(q[info.csumStart..])) == 0xffff)
  {
    hide Norm, Sum16, Word;
    if info.needsCsum && Single(p, info).Ok? && info.csumOffset % 2 == 0 {
      CompletedSums(p, info.csumStart, info.csumOffset);
    }
  }

  /** `split_into` on a packet without segmentation fills one slot with it. */
  lemma SingleDelivers(p: seq<Byte>, info: OffloadInfo, before: seq<seq<Byte>>, after: seq<seq<Byte>>,
                       sizes: seq<nat>, offset: nat, count: nat)
    requires info.gsoType == NoGso || info.gsoSize == 0
    requires SplitDone(p, info, before, after, sizes, offset, count)
    ensures count == 1 && Single(p, info).Ok? && Window(after, sizes, offset, 0) == Single(p, info).value
  {
    hide Single;
  }
}

/** The splitter of `src/core/packet.rs` working in place on the caller's output slots. */
module GsoSplit {
  import opened Common
  import opened Checksum
  import opened Segments
  import SegmentProofs

  const USIZE_MAX := 0xffff_ffff_ffff_ffff

  /** s with the bytes from `at` on replaced by `part`. */
  ghost function Splice(s: seq<Byte>, at: nat, part: seq<Byte>): (r: seq<Byte>)
    requires at + |part| <= |s|
    ensures |r| == |s|
  {
    s[..at] + part + s[at + |part|..]
  }

  lemma SplicePut(s: seq<Byte>, from: nat, part: seq<Byte>, at: nat, v: U16)
    requires from + |part| <= |s| && at + 2 <= |part|
    ensures Put16(Splice(s, from, part), from + at, v) == Splice(s, from, Put16(part, at, v))
  {
    hide High, Low;
  }

  lemma SpliceSlice(s: seq<Byte>, from: nat, part: seq<Byte>, lo: nat, hi: nat)
    requires from + |part| <= |s| && lo <= hi <= |part|
    ensures Splice(s, from, part)[from + lo..from + hi] == part[lo..hi]
  {
  }

  method WriteU16(a: array<Byte>, at: nat, v: U16)
    requires at + 2 <= a.Length
    modifies a
    ensures a[..] == Put16(old(a[..]), at, v)
  {
    a[at] := High(v);
    a[at + 1] := Low(v);
  }

  /** `write_u16_be` at `at` inside the segment that occupies the window from `offset` on. */
  method WriteInSegment(slot: array<Byte>, offset: nat, ghost before: seq<Byte>, ghost part: seq<Byte>, at: nat, v: U16)
    requires offset + |part| <= |before| == slot.Length && at + 2 <= |part|
    requires slot[..] == Splice(before, offset, part)
    modifies slot
    ensures slot[..] == Splice(before, offset, Put16(part, at, v))
  {
    hide Splice, Put16;
    WriteU16(slot, offset + at, v);
    SplicePut(before, offset, part, at, v);
  }

  lemma SpliceStep(s: seq<Byte>, at: nat, part: seq<Byte>, i: nat)
    requires at + |part| <= |s| && i < |part|
    ensures Splice(s, at, []) == s
    ensures Splice(s, at, part[..i])[at + i := part[i]] == Splice(s, at, part[..i + 1])
  {
  }

  method CopyFromSlice(a: array<Byte>, at: nat, part: seq<Byte>)
    requires at + |part| <= a.Length
    modifies a
    ensures a[..] == Splice(old(a[..]), at, part)
  {
    assert Splice(a[..], at, []) == a[..];
    hide Splice;
    var i := 0;
    while i < |part|
      invariant 0 <= i <= |part|
      invariant a[..] == Splice(old(a[..]), at, part[..i])
    {
      SpliceStep(old(a[..]), at, part, i);
      a[at + i] := part[i];
      i := i + 1;
    }
    assert part[..|part|] == part;
  }

  /** `checksum` of a slice of a slot, for slices no longer than a packet. */
  method SliceChecksum(slot: array<Byte>, lo: nat, hi: nat, initial: U64) returns (r: U16)
    requires lo <= hi <= slot.Length && hi - lo <= 0x1_0000_0000 && initial < 0x8000_0000_0000_0000
    ensures r == Norm(initial + Sum16(slot[lo..hi]))
  {
    hide Norm, Sum16, Sum32;
    r := Checksum.Checksum(slot[lo..hi], initial);
    PacketSizedNeverOverflows(slot[lo..hi], initial);
    ReferenceIsNorm(slot[lo..hi], initial);
  }

  /** The IPv4 branch of the header rewrite. */
  method RewriteIpv4(slot: array<Byte>, offset: nat, ghost before: seq<Byte>, ghost s: seq<Byte>, total: nat,
                     sh: Shape, info: OffloadInfo, index: nat)
    requires WellFormed(sh, info) && sh.hdrLen <= |s| == total && offset + total <= |before| == slot.Length
    requires !sh.v6 && slot[..] == Splice(before, offset, s)
    modifies slot
    ensures slot[..] == Splice(before, offset, IpRewrite(s, sh, info, index))
  {
    hide Splice, Norm, Sum16, High, Low, Trunc16, Put16, Word;
    var cs: nat := info.csumStart;
    ghost var a := s;
    if index > 0 {
      SpliceGet(before, offset, s, 4);
      var id := Get16(slot[..], offset + 4);
      WriteInSegment(slot, offset, before, s, 4, Trunc16(id + index));
      a := Put16(s, 4, Trunc16(id + index));
    }
    WriteInSegment(slot, offset, before, a, 2, Trunc16(total));
    ghost var b := Put16(a, 2, Trunc16(total));
    SpliceSlice(before, offset, b, 0, cs);
    var sum := SliceChecksum(slot, offset, offset + cs, 0);
    assert slot[offset..offset + cs] == b[..cs];
    WriteInSegment(slot, offset, before, b, 10, 0xffff - sum);
  }

  method RewriteIp(slot: array<Byte>, offset: nat, ghost before: seq<Byte>, ghost s: seq<Byte>, total: nat,
                   sh: Shape, info: OffloadInfo, index: nat)
    requires WellFormed(sh, info) && sh.hdrLen <= |s| == total && offset + total <= |before| == slot.Length
    requires slot[..] == Splice(before, offset, s)
    modifies slot
    ensures slot[..] == Splice(before, offset, IpRewrite(s, sh, info, index))
  {
    hide Splice, Norm, Sum16, High, Low, Trunc16, Put16;
    if sh.v6 {
      WriteInSegment(slot, offset, before, s, 4, Trunc16(total - 40));
    } else {
      RewriteIpv4(slot, offset, before, s, total, sh, info, index);
    }
  }

  lemma SpliceGet(s: seq<Byte>, from: nat, part: seq<Byte>, at: nat)
    requires from + |part| <= |s| && at + 2 <= |part|
    ensures Get16(Splice(s, from, part), from + at) == Get16(part, at)
  {
  }

  method RewriteTransport(slot: array<Byte>, offset: nat, ghost before: seq<Byte>, ghost s: seq<Byte>, total: nat,
                          sh: Shape, info: OffloadInfo, index: nat, firstSeq: nat, last: bool)
    requires WellFormed(sh, info) && sh.hdrLen <= |s| == total && offset + total <= |before| == slot.Length
    requires info.csumStart + 8 <= sh.hdrLen
    requires sh.protocol == TCP ==> info.csumStart + 20 <= sh.hdrLen && firstSeq == Get32(s, info.csumStart as nat + 4)
    requires slot[..] == Splice(before, offset, s)
    modifies slot
    ensures slot[..] == Splice(before, offset, TransportRewrite(s, sh, info, index, last))
  {
    hide Splice, High, Low, High16, Low16, Trunc16, Trunc32, Put16, ClearFinPsh, Skip, Word;
    var cs: nat := info.csumStart;
    if sh.protocol == TCP {
      var tcpSeq := Trunc32(firstSeq + Skip(index, info.gsoSize));
      WriteInSegment(slot, offset, before, s, cs + 4, High16(tcpSeq));
      ghost var t := Put16(s, cs + 4, High16(tcpSeq));
      WriteInSegment(slot, offset, before, t, cs + 6, Low16(tcpSeq));
      ghost var u := Put16(t, cs + 6, Low16(tcpSeq));
      assert u == Put32(s, cs + 4, tcpSeq);
      if !last {
        var f := cs + TCP_FLAGS_OFFSET;
        SpliceSet(before, offset, u, f, ClearFinPsh(u[f]));
        slot[offset + f] := ClearFinPsh(slot[offset + f]);
      }
    } else {
      WriteInSegment(slot, offset, before, s, cs + 4, Trunc16(total - cs));
    }
  }

  lemma SpliceSet(s: seq<Byte>, from: nat, part: seq<Byte>, at: nat, b: Byte)
    requires from + |part| <= |s| && at < |part|
    ensures Splice(s, from, part)[from + at] == part[at]
    ensures Splice(s, from, part)[from + at := b] == Splice(s, from, part[at := b])
  {
  }

  /** `pseudo_header_checksum_no_fold`. */
  method PseudoHeaderChecksum(src: seq<Byte>, dst: seq<Byte>, protocol: Byte, len: U16) returns (r: U64)
    requires |src| <= 16 && |dst| <= 16
    ensures r == PseudoSum(src, dst, protocol, len) < 0x8000_0000_0000_0000
  {
    hide Sum32, High, Low;
    Sum32Bound(src);
    Sum32Bound(dst);
    Sum32Bound(LengthBytes(protocol, len));
    r := ChecksumNoFold(src, 0);
    r := ChecksumNoFold(dst, r);
    r := ChecksumNoFold(LengthBytes(protocol, len), r);
  }

  method FillChecksum(slot: array<Byte>, offset: nat, ghost before: seq<Byte>, ghost s: seq<Byte>, total: nat,
                      ghost z: seq<Byte>, src: seq<Byte>, dst: seq<Byte>, sh: Shape, info: OffloadInfo)
    requires WellFormed(sh, info) && sh.hdrLen <= |s| == total && sh.hdrLen <= |z|
    requires offset + total <= |before| == slot.Length && total <= 0x1_0000_0000
    requires src == Source(z, sh.v6) && dst == Destination(z, sh.v6)
    requires slot[..] == Splice(before, offset, s)
    modifies slot
    ensures slot[..] == Splice(before, offset, Finish(s, z, sh, info))
  {
    hide Splice, High, Low, Trunc16, Put16, PseudoSum, Norm, Sum16;
    var cs: nat := info.csumStart;
    var pseudo := PseudoHeaderChecksum(src, dst, sh.protocol, Trunc16(total - cs));
    SpliceSlice(before, offset, s, cs, total);
    var sum := SliceChecksum(slot, offset + cs, offset + total, pseudo);
    assert slot[offset + cs..offset + total] == s[cs..];
    WriteInSegment(slot, offset, before, s, ChecksumAt(info), 0xffff - sum);
  }

  /** The writes of one loop iteration, inside the window of one slot. */
  method WriteSegment(slot: array<Byte>, offset: nat, z: seq<Byte>, sh: Shape, info: OffloadInfo, index: nat,
                      src: seq<Byte>, dst: seq<Byte>, firstSeq: nat, last: bool)
    requires Ready(z, sh, info, index) && sh.hdrLen <= 0x2_0000
    requires offset + sh.hdrLen + ChunkLen(|z|, sh, info, index) <= slot.Length
    requires src == Source(z, sh.v6) && dst == Destination(z, sh.v6)
    requires sh.protocol == TCP ==> firstSeq == Get32(z, info.csumStart as nat + 4)
    requires last == !HasSegment(|z|, sh, info, index + 1)
    modifies slot
    ensures slot[..] == Splice(old(slot[..]), offset, Segment(z, sh, info, index))
  {
    hide Skip, IpRewrite, TransportRewrite, Finish, Splice, Put16, Word;
    var cs: nat := info.csumStart;
    ghost var before := slot[..];
    var chunk := ChunkLen(|z|, sh, info, index);
    var dataAt := sh.hdrLen + Skip(index, info.gsoSize);
    var total := sh.hdrLen + chunk;
    CopyFromSlice(slot, offset, z[..sh.hdrLen] + z[dataAt..dataAt + chunk]);
    ghost var base := Base(z, sh, info, index);
    ghost var ip := IpRewrite(base, sh, info, index);
    RewriteIp(slot, offset, before, base, total, sh, info, index);
    assert sh.protocol == TCP ==> Get32(ip, cs + 4) == Get32(z, cs + 4);
    RewriteTransport(slot, offset, before, ip, total, sh, info, index, firstSeq, last);
    FillChecksum(slot, offset, before, Draft(z, sh, info, index), total, z, src, dst, sh, info);
  }

  // ----- the whole split -----

  predicate Fits(slotLen: nat, offset: nat, len: nat) {
    offset + len <= USIZE_MAX && offset + len <= slotLen
  }

  /** A slot takes a packet exactly if that many bytes are left behind the offset. */
  lemma RoomExactly(slotLen: nat, offset: nat, len: nat)
    requires slotLen <= USIZE_MAX
    ensures Fits(slotLen, offset, len) <==> slotLen - offset >= len
  {
  }

  /** What the code knows when its segment loop starts. */
  datatype Plan = Plan(z: seq<Byte>, sh: Shape, info: OffloadInfo, count: nat) {
    ghost predicate Valid() {
      && sh.hdrLen <= 0x2_0000
      && Splittable(z, sh, info)
      && forall i: nat :: i < count <==> Ready(z, sh, info, i)
    }

    function Part(i: nat): seq<Byte> {
      if Ready(z, sh, info, i) then Segment(z, sh, info, i) else []
    }

    function Len(i: nat): nat {
      if HasSegment(|z|, sh, info, i) then sh.hdrLen + ChunkLen(|z|, sh, info, i) else 0
    }
  }

  predicate Acceptable(input: seq<Byte>, info: OffloadInfo) {
    var p := ParseShape(input, info);
    info.gsoSize > 0 && (p.Ok? ==> WellFormed(p.value, info))
  }

  function MakePlan(input: seq<Byte>, info: OffloadInfo): Result<Plan>
    requires Acceptable(input, info)
  {
    match ParseShape(input, info)
    case Err(e) => Err(e)
    case Ok(sh) => Ok(Plan(Cleared(input, sh, info), sh, info, SegmentCount(|input| - sh.hdrLen, info.gsoSize)))
  }

  lemma PlanIsValid(input: seq<Byte>, info: OffloadInfo)
    requires Acceptable(input, info) && MakePlan(input, info).Ok?
    ensures MakePlan(input, info).value.Valid()
  {
    hide ParseShape, Cleared, SegmentCount, HasSegment;
    var sh := ParseShape(input, info).value;
    forall i: nat
      ensures i < SegmentCount(|input| - sh.hdrLen, info.gsoSize) <==> Ready(Cleared(input, sh, info), sh, info, i)
    {
      SegmentProofs.CountIsExact(|input|, sh, info, i);
    }
  }

  ghost predicate SlotDone(slot: seq<Byte>, before: seq<Byte>, size: nat, offset: nat, plan: Plan, i: nat) {
    && Fits(|before|, offset, plan.Len(i)) && size == plan.Len(i) == |plan.Part(i)|
    && slot == Splice(before, offset, plan.Part(i))
  }

  /** The segment loop: stops at the first slot too small for its segment. */
  method WriteSegments(input: array<Byte>, ghost plan: Plan, sh: Shape, info: OffloadInfo, count: nat,
                       out: seq<array<Byte>>, sizes: array<nat>, offset: nat)
    returns (r: Result<nat>, ghost done: nat)
    requires plan.Valid() && plan == Plan(input[..], sh, info, count)
    requires count <= |out| && count <= sizes.Length
    requires forall i, j :: 0 <= i < j < |out| ==> out[i] != out[j]
    requires forall i :: 0 <= i < |out| ==> out[i] != input && out[i] as object != sizes
    requires sizes as object != input
    modifies sizes, out
    ensures done <= count
    ensures forall i :: 0 <= i < done ==> SlotDone(out[i][..], old(out[i][..]), sizes[i], offset, plan, i)
    ensures forall i :: done <= i < |out| ==> out[i][..] == old(out[i][..])
    ensures forall i :: done <= i < sizes.Length ==> sizes[i] == old(sizes[i])
    ensures done == count ==> r == Ok(count)
    ensures done < count ==>
              && !Fits(out[done].Length, offset, plan.Len(done))
              && r == Err(if offset + plan.Len(done) > USIZE_MAX then OffsetOverflow else SlotTooSmall)
  {
    hide Segment, Splice, WellFormed, Get32;
    var src, dst, firstSeq := [], [], 0;
    if count > 0 {
      assert Ready(plan.z, sh, info, 0);
      src, dst := SourceOf(input, sh, info, 0), DestinationOf(input, sh, info, 0);
      if sh.protocol == TCP {
        firstSeq := Get32(input[..], info.csumStart as nat + 4);
      }
    }
    done := 0;
    var index := 0;
    while index < count
      invariant 0 <= index == done <= count
      invariant input[..] == plan.z
      invariant forall i :: 0 <= i < done ==> SlotDone(out[i][..], old(out[i][..]), sizes[i], offset, plan, i)
      invariant forall i :: done <= i < |out| ==> out[i][..] == old(out[i][..])
      invariant forall i :: done <= i < sizes.Length ==> sizes[i] == old(sizes[i])
    {
      assert Ready(plan.z, sh, info, index);
      var len := sh.hdrLen + ChunkLen(input.Length, sh, info, index);
      if offset + len > USIZE_MAX {
        return Err(OffsetOverflow), done;
      }
      if out[index].Length < offset + len {
        return Err(SlotTooSmall), done;
      }
      assert HasSegment(|plan.z|, sh, info, index + 1) <==> Ready(plan.z, sh, info, index + 1);
      WriteSegment(out[index], offset, input[..], sh, info, index, src, dst, firstSeq, index + 1 == count);
      sizes[index] := len;
      index := index + 1;
      done := index;
    }
    r := Ok(count);
  }

  function SourceOf(input: array<Byte>, sh: Shape, info: OffloadInfo, index: nat): seq<Byte>
    requires Ready(input[..], sh, info, index)
    reads input
  {
    Source(input[..], sh.v6)
  }

  function DestinationOf(input: array<Byte>, sh: Shape, info: OffloadInfo, index: nat): seq<Byte>
    requires Ready(input[..], sh, info, index)
    reads input
  {
    Destination(input[..], sh.v6)
  }

  /**
   `split_gso_packet`. Errors found before the segment loop leave every slot alone; the loop leaves
   the slots from the failing one on alone. `done` counts the slots written.
   */
  method SplitGsoPacket(input: array<Byte>, info: OffloadInfo, out: seq<array<Byte>>, sizes: array<nat>, offset: nat)
    returns (r: Result<nat>, ghost done: nat)
    requires Acceptable(input[..], info)
    requires forall i, j :: 0 <= i < j < |out| ==> out[i] != out[j]
    requires forall i :: 0 <= i < |out| ==> out[i] != input && out[i] as object != sizes
    requires sizes as object != input
    modifies input, sizes, out
    ensures forall i :: done <= i < |out| ==> out[i][..] == old(out[i][..])
    ensures forall i :: done <= i < sizes.Length ==> sizes[i] == old(sizes[i])
    ensures match MakePlan(old(input[..]), info)
            case Err(e) => done == 0 && r == Err(e)
            case Ok(plan) =>
              && plan.Valid()
              && if |out| < plan.count || sizes.Length < plan.count then done == 0 && r == Err(NotEnoughSlots)
                 else
                   && done <= plan.count && done <= sizes.Length
                   && (forall i :: 0 <= i < done ==> SlotDone(out[i][..], old(out[i][..]), sizes[i], offset, plan, i))
                   && (r.Ok? ==> done == plan.count == r.value)
                   && (r.Err? ==>
                         && done < plan.count && !Fits(out[done].Length, offset, plan.Len(done))
                         && r.error == if offset + plan.Len(done) > USIZE_MAX then OffsetOverflow else SlotTooSmall)
  {
    hide Segment, Splice, ParseShape, Put16, SlotDone;
    done := 0;
    ghost var made := MakePlan(input[..], info);
    var parsed := ParseShape(input[..], info);
    if parsed.Err? {
      return Err(parsed.error), 0;
    }
    var sh := parsed.value;
    var count := SegmentCount(input.Length - sh.hdrLen, info.gsoSize);
    PlanIsValid(input[..], info);
    if |out| < count || sizes.Length < count {
      return Err(NotEnoughSlots), 0;
    }
    ClearInput(input, sh, info);
    r, done := WriteSegments(input, made.value, sh, info, count, out, sizes, offset);
  }

  method ClearInput(input: array<Byte>, sh: Shape, info: OffloadInfo)
    requires WellFormed(sh, info) && sh.hdrLen <= input.Length
    modifies input
    ensures input[..] == Cleared(old(input[..]), sh, info)
  {
    hide High, Low;
    if !sh.v6 {
      WriteU16(input, 10, 0);
    }
    WriteU16(input, ChecksumAt(info), 0);
  }

  // ----- the theorem about every split -----

  /** Clearing the checksum fields touches nothing else. */
  lemma ClearedElsewhere(input: seq<Byte>, sh: Shape, info: OffloadInfo, i: nat)
    requires WellFormed(sh, info) && sh.hdrLen <= |input| && i < |input|
    requires !(ChecksumAt(info) <= i < ChecksumAt(info) + 2) && (!sh.v6 ==> !(10 <= i < 12))
    ensures Cleared(input, sh, info)[i] == input[i]
  {
  }

  /** Every segment of every accepted packet passes both of the receiver's checks. */
  lemma SegmentsCheck(input: seq<Byte>, info: OffloadInfo, i: nat)
    requires Acceptable(input, info) && MakePlan(input, info).Ok?
    requires var plan := MakePlan(input, info).value;
             i < plan.count && FieldFree(plan.sh, info) && plan.Len(i) <= 0xffff
    ensures var plan := MakePlan(input, info).value;
            && SegmentProofs.TransportChecks(plan.Part(i), plan.sh.v6, plan.sh.protocol, info.csumStart)
            && (!plan.sh.v6 ==> SegmentProofs.Ipv4HeaderChecks(plan.Part(i), info.csumStart))
  {
    hide Segment, SegmentProofs.TransportChecks, SegmentProofs.Ipv4HeaderChecks, ParseShape, Cleared;
    PlanIsValid(input, info);
    var plan := MakePlan(input, info).value;
    assert Ready(plan.z, plan.sh, info, i);
    SegmentProofs.ClearedIsCleared(input, plan.sh, info);
    SegmentProofs.TransportSums(plan.z, plan.sh, info, i);
    if !plan.sh.v6 {
      SegmentProofs.Ipv4HeaderSums(plan.z, plan.sh, info, i);
    }
  }

  /** The payloads of all segments, joined, are the payload of the input. */
  lemma PayloadSurvives(input: seq<Byte>, info: OffloadInfo)
    requires Acceptable(input, info) && MakePlan(input, info).Ok?
    ensures var plan := MakePlan(input, info).value;
            && Splittable(plan.z, plan.sh, info)
            && SegmentProofs.Payloads(plan.z, plan.sh, info, 0) == input[plan.sh.hdrLen..]
  {
    hide Segment, SegmentProofs.Payloads;
    PlanIsValid(input, info);
    var plan := MakePlan(input, info).value;
    SegmentProofs.NothingLost(plan.z, plan.sh, info);
    forall i | plan.sh.hdrLen <= i < |input| ensures plan.z[i] == input[i] {
      ClearedElsewhere(input, plan.sh, info, i);
    }
    assert plan.z[plan.sh.hdrLen..] == input[plan.sh.hdrLen..];
  }

  /** A UDP packet with one payload byte whose checksum offset names the UDP length field is accepted
      and cut, and its segment fails the receiver's check. */
  lemma MisplacedUdpChecksum() returns (input: seq<Byte>, info: OffloadInfo)
    ensures info.csumOffset == 4 && Acceptable(input, info) && MakePlan(input, info).Ok?
    ensures var plan := MakePlan(input, info).value;
            && plan.count == 1 && plan.sh == Shape(false, UDP, 28)
            && !SegmentProofs.TransportChecks(plan.Part(0), false, UDP, info.csumStart)
  {
    input := seq(29, i => if i == 0 then 0x45 else 0);
    info := OffloadInfo(UdpL4, 1, 28, 20, 4, true);
    assert ParseShape(input, info) == Ok(Shape(false, UDP, 28));
    PlanIsValid(input, info);
    var plan := MakePlan(input, info).value;
    hide Segment, SegmentProofs.TransportChecks, ParseShape, Cleared;
    assert Ready(plan.z, plan.sh, info, 0);
    SegmentProofs.ClearedIsCleared(input, plan.sh, info);
    SegmentProofs.UdpChecksExactly(plan.z, plan.sh, info, 0);
  }

  // ----- packets without segmentation -----

  /** `gso_none_checksum`: the field holds the folded pseudo-header sum on entry. */
  function Completed(packet: seq<Byte>, cs: nat, offset: nat): (r: seq<Byte>)
    requires cs + offset + 2 <= |packet|
    ensures |r| == |packet|
  {
    var z := Put16(packet, cs + offset, 0);
    Put16(z, cs + offset, 0xffff - Norm(Get16(packet, cs + offset) + Sum16(z[cs..])))
  }

  method GsoNoneChecksum(packet: array<Byte>, cs: nat, offset: nat)
    requires cs + offset + 2 <= packet.Length <= 0x1_0000_0000
    modifies packet
    ensures packet[..] == Completed(old(packet[..]), cs, offset)
  {
    hide Norm, Sum16, Put16, Word;
    var initial := Get16(packet[..], cs + offset);
    WriteU16(packet, cs + offset, 0);
    var sum := SliceChecksum(packet, cs, packet.Length, initial);
    assert packet[cs..packet.Length] == packet[..][cs..];
    WriteU16(packet, cs + offset, 0xffff - sum);
  }

  /** The finished transport bytes and the partial sum that was in the field fold to all ones. */
  lemma CompletedSums(packet: seq<Byte>, cs: nat, offset: nat)
    requires cs + offset + 2 <= |packet| && offset % 2 == 0
    ensures Norm(Get16(packet, cs + offset) + Sum16(Completed(packet, cs, offset)[cs..])) == 0xffff
  {
    hide Norm, Sum16, Put16, Word;
    var z := Put16(packet, cs + offset, 0);
    var initial := Get16(packet, cs + offset);
    GetPut16(packet, cs + offset, 0);
    assert Get16(z[cs..], offset) == Get16(z, cs + offset);
    CompleteField(z[cs..], offset, initial);
    SegmentProofs.TailOfPut(z, cs, offset, 0xffff - Norm(initial + Sum16(z[cs..])));
  }

  /** `copy_single_segment`. */
  method CopySingleSegment(packet: seq<Byte>, out: seq<array<Byte>>, sizes: array<nat>, offset: nat)
    returns (r: Result<nat>)
    requires forall i :: 0 <= i < |out| ==> out[i] as object != sizes
    modifies sizes, out
    ensures r.Ok? <==> |out| >= 1 && sizes.Length >= 1 && Fits(out[0].Length, offset, |packet|)
    ensures r.Err? ==>
              r.error == if |out| < 1 || sizes.Length < 1 then NotEnoughSlots
                         else if offset + |packet| > USIZE_MAX then OffsetOverflow
                         else SlotTooSmall
    ensures r.Ok? ==> r.value == 1 && sizes[0] == |packet| && out[0][..] == Splice(old(out[0][..]), offset, packet)
    ensures r.Err? ==> forall i :: 0 <= i < |out| ==> out[i][..] == old(out[i][..])
    ensures forall i :: 1 <= i < |out| && out[i] != out[0] ==> out[i][..] == old(out[i][..])
    ensures forall i :: (if r.Ok? then 1 else 0) <= i < sizes.Length ==> sizes[i] == old(sizes[i])
  {
    if |out| < 1 || sizes.Length < 1 {
      return Err(NotEnoughSlots);
    }
    if offset + |packet| > USIZE_MAX {
      return Err(OffsetOverflow);
    }
    if out[0].Length < offset + |packet| {
      return Err(SlotTooSmall);
    }
    CopyFromSlice(out[0], offset, packet);
    sizes[0] := |packet|;
    r := Ok(1);
  }

  predicate Segmented(info: OffloadInfo) { info.gsoType != NoGso && info.gsoSize > 0 }

  /** The one packet that comes out when there is nothing to segment. */
  function Single(payload: seq<Byte>, info: OffloadInfo): Result<seq<Byte>> {
    if !info.needsCsum then Ok(payload)
    else if !ChecksumInBounds(|payload|, info) then Err(ChecksumOutOfBounds)
    else Ok(Completed(payload, info.csumStart, info.csumOffset))
  }

  /** The packet can be planned and every segment has a slot that takes it. */
  ghost predicate PlanFits(payload: seq<Byte>, info: OffloadInfo, out: seq<array<Byte>>, sizes: nat, offset: nat)
    requires Acceptable(payload, info)
  {
    && MakePlan(payload, info).Ok?
    && var plan := MakePlan(payload, info).value;
    && plan.count <= |out| && plan.count <= sizes
    && forall i :: 0 <= i < plan.count ==> Fits(out[i].Length, offset, plan.Len(i))
  }

  ghost function Slots(out: seq<array<Byte>>): (r: seq<seq<Byte>>)
    reads out
    ensures |r| == |out| && forall i :: 0 <= i < |out| ==> r[i] == out[i][..]
  {
    seq(|out|, i requires 0 <= i < |out| reads out => out[i][..])
  }

  /** What a successful split leaves in the slots and sizes; slots it does not need are untouched. */
  ghost predicate SplitDone(payload: seq<Byte>, info: OffloadInfo, before: seq<seq<Byte>>, after: seq<seq<Byte>>,
                            sizes: seq<nat>, offset: nat, count: nat)
  {
    && |before| == |after| && count <= |before| && count <= |sizes|
    && (forall i :: count <= i < |before| ==> after[i] == before[i])
    && if Segmented(info) then
         && Acceptable(payload, info) && MakePlan(payload, info).Ok?
         && var plan := MakePlan(payload, info).value;
         && count == plan.count
         && forall i :: 0 <= i < count ==> SlotDone(after[i], before[i], sizes[i], offset, plan, i)
       else
         && Single(payload, info).Ok?
         && var packet := Single(payload, info).value;
         && count == 1 && sizes[0] == |packet| && offset + |packet| <= |before[0]|
         && after[0] == Splice(before[0], offset, packet)
  }

  /** The output depends on payload, offload information and slots alone. */
  lemma SplitIsDetermined(payload: seq<Byte>, info: OffloadInfo, before: seq<seq<Byte>>, offset: nat,
                          after: seq<seq<Byte>>, sizes: seq<nat>, count: nat,
                          after': seq<seq<Byte>>, sizes': seq<nat>, count': nat)
    requires SplitDone(payload, info, before, after, sizes, offset, count)
    requires SplitDone(payload, info, before, after', sizes', offset, count')
    ensures count == count' && after == after' && sizes[..count] == sizes'[..count]
  {
    hide Segment, Splice, MakePlan, Single;
    assert count == count';
    forall i | 0 <= i < |before|
      ensures after[i] == after'[i]
    {
      if i < count && Segmented(info) {
        var plan := MakePlan(payload, info).value;
        assert SlotDone(after[i], before[i], sizes[i], offset, plan, i);
        assert SlotDone(after'[i], before[i], sizes'[i], offset, plan, i);
      }
    }
    forall i | 0 <= i < count
      ensures sizes[i] == sizes'[i]
    {
      if Segmented(info) {
        var plan := MakePlan(payload, info).value;
        assert SlotDone(after[i], before[i], sizes[i], offset, plan, i);
        assert SlotDone(after'[i], before[i], sizes'[i], offset, plan, i);
      }
    }
  }

  /** The branch of `split_into` for a packet that is not segmented. */
  method SingleInto(payload: seq<Byte>, info: OffloadInfo, out: seq<array<Byte>>, sizes: array<nat>, offset: nat)
    returns (r: Result<nat>)
    requires |payload| <= 0x1_0000_0000 && !Segmented(info)
    requires forall i, j :: 0 <= i < j < |out| ==> out[i] != out[j]
    requires forall i :: 0 <= i < |out| ==> out[i] as object != sizes
    modifies sizes, out
    ensures Single(payload, info).Err? ==> r == Err(ChecksumOutOfBounds)
    ensures Single(payload, info).Ok? ==>
              (r.Ok? <==> |out| >= 1 && sizes.Length >= 1 && Fits(out[0].Length, offset, |Single(payload, info).value|))
    ensures r.Ok? ==> SplitDone(payload, info, old(Slots(out)), Slots(out), sizes[..], offset, r.value)
    ensures r.Err? ==> Slots(out) == old(Slots(out))
  {
    hide Splice, Put16, Norm, Sum16;
    if info.needsCsum {
      var copy := new Byte[|payload|](i requires 0 <= i < |payload| => payload[i]);
      assert copy[..] == payload;
      if !ChecksumInBounds(copy.Length, info) {
        return Err(ChecksumOutOfBounds);
      }
      GsoNoneChecksum(copy, info.csumStart, info.csumOffset);
      r := CopySingleSegment(copy[..], out, sizes, offset);
    } else {
      r := CopySingleSegment(payload, out, sizes, offset);
    }
  }

  /** The branch for a packet to be segmented. */
  method SegmentsInto(payload: seq<Byte>, info: OffloadInfo, out: seq<array<Byte>>, sizes: array<nat>, offset: nat)
    returns (r: Result<nat>)
    requires Segmented(info) && Acceptable(payload, info)
    requires forall i, j :: 0 <= i < j < |out| ==> out[i] != out[j]
    requires forall i :: 0 <= i < |out| ==> out[i] as object != sizes
    modifies sizes, out
    ensures r.Ok? <==> PlanFits(payload, info, out, sizes.Length, offset)
    ensures MakePlan(payload, info).Err? ==> r == Err(MakePlan(payload, info).error)
    ensures r.Ok? ==> SplitDone(payload, info, old(Slots(out)), Slots(out), sizes[..], offset, r.value)
  {
    hide Segment, Splice, MakePlan, SlotDone, Acceptable;
    var copy := new Byte[|payload|](i requires 0 <= i < |payload| => payload[i]);
    assert copy[..] == payload;
    ghost var done;
    r, done := SplitGsoPacket(copy, info, out, sizes, offset);
    if r.Ok? {
      ghost var plan := MakePlan(payload, info).value;
      forall i | 0 <= i < plan.count
        ensures Fits(out[i].Length, offset, plan.Len(i))
      {
        SlotFits(out[i][..], old(out[i][..]), sizes[i], offset, plan, i);
      }
    }
  }

  lemma SlotFits(slot: seq<Byte>, before: seq<Byte>, size: nat, offset: nat, plan: Plan, i: nat)
    requires SlotDone(slot, before, size, offset, plan, i)
    ensures Fits(|before|, offset, plan.Len(i))
  {
  }

  /** `Packet::split_into` on the packet's payload, for a packet that has offload information. */
  method SplitInto(payload: seq<Byte>, info: OffloadInfo, out: seq<array<Byte>>, sizes: array<nat>, offset: nat)
    returns (r: Result<nat>)
    requires |payload| <= 0x1_0000_0000
    requires Segmented(info) ==> Acceptable(payload, info)
    requires forall i, j :: 0 <= i < j < |out| ==> out[i] != out[j]
    requires forall i :: 0 <= i < |out| ==> out[i] as object != sizes
    modifies sizes, out
    ensures r.Ok? <==> CanSplit(payload, info, out, sizes.Length, offset)
    ensures r.Ok? ==> SplitDone(payload, info, old(Slots(out)), Slots(out), sizes[..], offset, r.value)
  {
    hide SplitDone, Single, PlanFits, Slots, Acceptable;
    if Segmented(info) {
      r := SegmentsInto(payload, info, out, sizes, offset);
    } else {
      r := SingleInto(payload, info, out, sizes, offset);
    }
  }

  /** The caller's slots are enough and large enough, and the packet is sound. */
  ghost predicate CanSplit(payload: seq<Byte>, info: OffloadInfo, out: seq<array<Byte>>, sizes: nat, offset: nat)
    requires Segmented(info) ==> Acceptable(payload, info)
  {
    if Segmented(info) then PlanFits(payload, info, out, sizes, offset)
    else
      && Single(payload, info).Ok?
      && |out| >= 1 && sizes >= 1 && Fits(out[0].Length, offset, |Single(payload, info).value|)
  }
}

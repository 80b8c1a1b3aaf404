/** What a receiver finds in the segments produced by the GSO splitter. */
module SegmentProofs {
  import opened Common
  import opened Checksum
  import opened Segments

  // ----- the receiver's side -----

  /** The transport length the receiver reads from the segment's own IP header. */
  function ReceivedLen(seg: seq<Byte>, v6: bool, ipHdrLen: nat): int
    requires |seg| >= 40 || (!v6 && |seg| >= 20)
  {
    if v6 then Get16(seg, 4) + 40 - ipHdrLen else Get16(seg, 2) - ipHdrLen
  }

  function Be16(v: U16): seq<Byte> { [High(v), Low(v)] }

  /** The pseudo-header of section 3.1 of RFC 9293 and section 8.1 of RFC 8200. */
  function PseudoHeader(seg: seq<Byte>, v6: bool, protocol: Byte, len: U16): seq<Byte>
    requires |seg| >= 40 || (!v6 && |seg| >= 20)
  {
    if v6 then seg[8..40] + [0, 0] + Be16(len) + [0, 0, 0, protocol]
    else seg[12..20] + [0, protocol] + Be16(len)
  }

  ghost predicate TransportChecks(seg: seq<Byte>, v6: bool, protocol: Byte, ipHdrLen: nat) {
    && (|seg| >= 40 || (!v6 && |seg| >= 20))
    && ipHdrLen <= |seg|
    && 0 <= ReceivedLen(seg, v6, ipHdrLen) < 0x1_0000
    && OnesSum(PseudoHeader(seg, v6, protocol, ReceivedLen(seg, v6, ipHdrLen)) + seg[ipHdrLen..], 0) == 0xffff
  }

  ghost predicate Ipv4HeaderChecks(seg: seq<Byte>, ipHdrLen: nat) {
    ipHdrLen <= |seg| && OnesSum(seg[..ipHdrLen], 0) == 0xffff
  }

  function Version(first: Byte): nat { first / 16 }

  /** The IPv4 header length in bytes, from the IHL nibble. */
  function Ihl(first: Byte): nat { first % 16 * 4 }

  /** A receiver that knows the segment alone: version, header length, total length and protocol come
      from its own IP header. */
  ghost predicate Accepts(seg: seq<Byte>) {
    && |seg| >= 20
    && if Version(seg[0]) == 6 then
         && |seg| >= 40 && Get16(seg, 4) + 40 == |seg|
         && TransportChecks(seg, true, seg[6], 40)
       else
         && Version(seg[0]) == 4 && 20 <= Ihl(seg[0]) <= |seg| && Get16(seg, 2) == |seg|
         && Ipv4HeaderChecks(seg, Ihl(seg[0]))
         && TransportChecks(seg, false, seg[9], Ihl(seg[0]))
  }

  /** The metadata agrees with the packet's own IP header. */
  predicate Describes(packet: seq<Byte>, sh: Shape, info: OffloadInfo) {
    && |packet| >= 20
    && if sh.v6 then Version(packet[0]) == 6 && info.csumStart == 40 && packet[6] == sh.protocol
       else Version(packet[0]) == 4 && info.csumStart == Ihl(packet[0]) && packet[9] == sh.protocol
  }

  /** z is the cleared copy of a packet the code accepts. */
  ghost predicate ClearedInput(z: seq<Byte>, sh: Shape, info: OffloadInfo) {
    && WellFormed(sh, info) && sh.hdrLen <= |z|
    && Get16(z, ChecksumAt(info)) == 0
    && (!sh.v6 ==> Get16(z, 10) == 0)
  }

  lemma ClearedIsCleared(input: seq<Byte>, sh: Shape, info: OffloadInfo)
    requires WellFormed(sh, info) && sh.hdrLen <= |input|
    ensures ClearedInput(Cleared(input, sh, info), sh, info)
  {
  }

  // ----- where the rewrites reach -----

  /** Below the transport header a finished segment is the IP rewrite, and nothing else moves there. */
  lemma IpPart(z: seq<Byte>, sh: Shape, info: OffloadInfo, index: nat)
    requires Ready(z, sh, info, index)
    ensures Segment(z, sh, info, index)[..info.csumStart]
            == IpRewrite(Base(z, sh, info, index), sh, info, index)[..info.csumStart]
  {
  }

  lemma AddressesKept(z: seq<Byte>, sh: Shape, info: OffloadInfo, index: nat)
    requires Ready(z, sh, info, index)
    ensures Segment(z, sh, info, index)[AddressAt(sh.v6)..AddressAt(sh.v6) + 2 * AddressLen(sh.v6)]
            == z[AddressAt(sh.v6)..AddressAt(sh.v6) + 2 * AddressLen(sh.v6)]
  {
    hide Segment;
    var seg, at, n := Segment(z, sh, info, index), AddressAt(sh.v6), 2 * AddressLen(sh.v6);
    if sh.v6 {
      forall i | 8 <= i < 12 ensures seg[i] == z[i] {
        OtherHeaderBytesKept(z, sh, info, index, i);
      }
    }
    assert seg[at..at + n] == z[at..at + n];
  }

  // ----- checksums -----

  /** Filling a clear header checksum makes the header sum to all ones. */
  lemma HeaderCompletes(s: seq<Byte>, cs: nat)
    requires 12 <= cs <= |s| && s[10] == s[11] == 0
    ensures OnesSum(Put16(s, 10, 0xffff - Norm(Sum16(s[..cs])))[..cs], 0) == 0xffff
  {
    hide Sum16, Norm, OnesSum, High, Low;
    var header := s[..cs];
    assert Get16(header, 10) == 0;
    CompleteField(header, 10, 0);
    var filled := 0xffff - Norm(Sum16(header));
    assert Put16(s, 10, filled)[..cs] == Put16(header, 10, filled);
    SumFromZero(Put16(header, 10, filled));
  }

  /** Section 3.1 of RFC 791: the header of every IPv4 segment sums to all ones. */
  lemma Ipv4HeaderSums(z: seq<Byte>, sh: Shape, info: OffloadInfo, index: nat)
    requires Ready(z, sh, info, index) && ClearedInput(z, sh, info) && !sh.v6
    ensures Ipv4HeaderChecks(Segment(z, sh, info, index), info.csumStart)
  {
    hide Segment, Sum16, Norm, OnesSum, High, Low, Trunc16, Base, HasSegment, ChunkLen, Skip;
    var s := Base(z, sh, info, index);
    var a := if index > 0 then Put16(s, 4, Trunc16(Get16(s, 4) + index)) else s;
    var b := Put16(a, 2, Trunc16(|s|));
    assert s[10] == z[10] && s[11] == z[11];
    assert a[10] == s[10] && a[11] == s[11];
    HeaderCompletes(b, info.csumStart);
    IpPart(z, sh, info, index);
  }

  /** Widening the pseudo-header words to 32 bits does not change what the sum folds to. */
  lemma PseudoSumIsNorm(src: seq<Byte>, dst: seq<Byte>, protocol: Byte, len: U16, x: nat)
    ensures Norm(PseudoSum(src, dst, protocol, len) + x)
            == Norm(Sum16(src) + Sum16(dst) + Word(0, protocol) + len + x)
  {
    Sum32Splits(src);
    Sum32Splits(dst);
    var t := LengthBytes(protocol, len);
    Sum32Splits(t);
    assert t[2..] == Be16(len) && t[2..][2..] == [];
    BytesOf(len);
    assert Sum16(t) == Word(0, protocol) + len;
    var n := Sum16(src) + Sum16(dst) + Sum16(t) + x;
    NormShift(n, Highs(src) + Highs(dst) + Highs(t));
  }

  lemma PairSum(hi: Byte, lo: Byte)
    ensures Sum16([hi, lo]) == Word(hi, lo)
  {
    assert [hi, lo][2..] == [];
  }

  /** The part of the pseudo-header after the addresses. */
  function PseudoTail(v6: bool, protocol: Byte, len: U16): seq<Byte> {
    if v6 then [0, 0] + Be16(len) + ([0, 0] + [0, protocol]) else [0, protocol] + Be16(len)
  }

  lemma PseudoTailSum(v6: bool, protocol: Byte, len: U16)
    ensures Sum16(PseudoTail(v6, protocol, len)) == Word(0, protocol) + len
  {
    hide Sum16, High, Low;
    BytesOf(len);
    PairSum(0, 0);
    PairSum(0, protocol);
    PairSum(High(len), Low(len));
    if v6 {
      Sum16Concat([0, 0], [0, protocol]);
      Sum16Concat([0, 0], Be16(len));
      Sum16Concat([0, 0] + Be16(len), [0, 0] + [0, protocol]);
    } else {
      Sum16Concat([0, protocol], Be16(len));
    }
  }

  lemma PseudoHeaderSum(seg: seq<Byte>, v6: bool, protocol: Byte, len: U16)
    requires |seg| >= 40 || (!v6 && |seg| >= 20)
    ensures |PseudoHeader(seg, v6, protocol, len)| == if v6 then 40 else 12
    ensures Sum16(PseudoHeader(seg, v6, protocol, len))
            == Sum16(Source(seg, v6)) + Sum16(Destination(seg, v6)) + Word(0, protocol) + len
  {
    hide Sum16, High, Low, Word;
    var src, dst, tail := Source(seg, v6), Destination(seg, v6), PseudoTail(v6, protocol, len);
    assert src + dst == if v6 then seg[8..40] else seg[12..20];
    assert PseudoHeader(seg, v6, protocol, len) == src + dst + tail;
    Sum16Concat(src, dst);
    Sum16Concat(src + dst, tail);
    PseudoTailSum(v6, protocol, len);
  }

  /** Before the checksum is filled in, its field is still clear. */
  lemma FieldStillClear(z: seq<Byte>, sh: Shape, info: OffloadInfo, index: nat)
    requires Ready(z, sh, info, index) && ClearedInput(z, sh, info) && FieldFree(sh, info)
    ensures Get16(Draft(z, sh, info, index), ChecksumAt(info)) == 0
  {
    hide Draft, HasSegment, ChunkLen, Skip;
    var at, draft := ChecksumAt(info), Draft(z, sh, info, index);
    assert draft[at] == 0;
    if Rewritten(sh, info.csumStart, at + 1) {
      ClearFlagsStay(z, sh, info, index);
    }
    assert draft[at + 1] == 0;
  }

  lemma ClearFlagsStay(z: seq<Byte>, sh: Shape, info: OffloadInfo, index: nat)
    requires Ready(z, sh, info, index) && sh.protocol == TCP && z[info.csumStart as nat + TCP_FLAGS_OFFSET] == 0
    ensures Draft(z, sh, info, index)[info.csumStart as nat + TCP_FLAGS_OFFSET] == 0
  {
    hide Draft, HasSegment, ChunkLen, Skip, ClearFinPsh, Trunc32, Get32;
    TcpFlagByte(z, sh, info, index);
  }

  lemma SourceAndDestinationKept(z: seq<Byte>, sh: Shape, info: OffloadInfo, index: nat)
    requires Ready(z, sh, info, index)
    ensures Source(Segment(z, sh, info, index), sh.v6) == Source(z, sh.v6)
    ensures Destination(Segment(z, sh, info, index), sh.v6) == Destination(z, sh.v6)
  {
    hide Segment;
    AddressesKept(z, sh, info, index);
    var seg, at, n := Segment(z, sh, info, index), AddressAt(sh.v6), AddressLen(sh.v6);
    assert Source(z, sh.v6) == z[at..at + 2 * n][..n] && Destination(z, sh.v6) == z[at..at + 2 * n][n..];
    assert Source(seg, sh.v6) == seg[at..at + 2 * n][..n];
    assert Destination(seg, sh.v6) == seg[at..at + 2 * n][n..];
  }

  lemma TailOfPut(s: seq<Byte>, from: nat, at: nat, v: U16)
    requires from + at + 2 <= |s|
    ensures Put16(s, from + at, v)[from..] == Put16(s[from..], at, v)
  {
  }

  /** The sender's own pseudo sum for segment `index`. */
  function SenderPseudo(z: seq<Byte>, sh: Shape, info: OffloadInfo, index: nat): nat
    requires Ready(z, sh, info, index)
  {
    PseudoSum(Source(z, sh.v6), Destination(z, sh.v6), sh.protocol,
              Trunc16(|Draft(z, sh, info, index)| - info.csumStart))
  }

  /** What the checksum field held when the checksum was computed: zero, or negative zero that was
      not all there was to sum. */
  predicate FieldHarmless(z: seq<Byte>, sh: Shape, info: OffloadInfo, index: nat)
    requires Ready(z, sh, info, index)
  {
    var draft := Draft(z, sh, info, index);
    var field := Get16(draft, ChecksumAt(info));
    || field == 0
    || (field == 0xffff && SenderPseudo(z, sh, info, index) + Sum16(draft[info.csumStart..]) != 0xffff)
  }

  /** The transport bytes plus the sender's own pseudo sum fold to all ones exactly when the
      checksum field was harmless. */
  lemma BodyCompletes(z: seq<Byte>, sh: Shape, info: OffloadInfo, index: nat)
    requires Ready(z, sh, info, index) && info.csumOffset % 2 == 0
    ensures Norm(SenderPseudo(z, sh, info, index) + Sum16(Segment(z, sh, info, index)[info.csumStart..])) == 0xffff
            <==> FieldHarmless(z, sh, info, index)
  {
    hide Sum16, Sum32, Norm, PseudoSum, Draft, Source, Destination, Trunc16, Put16;
    var cs := info.csumStart;
    var draft, seg := Draft(z, sh, info, index), Segment(z, sh, info, index);
    var pseudo := SenderPseudo(z, sh, info, index);
    var body := draft[cs..];
    CompleteField(body, info.csumOffset, pseudo);
    var filled := 0xffff - Norm(pseudo + Sum16(body));
    assert seg == Put16(draft, ChecksumAt(info), filled);
    TailOfPut(draft, cs, info.csumOffset, filled);
  }

  /** The receiver's transport check passes exactly when the checksum field was harmless. */
  lemma TransportExact(z: seq<Byte>, sh: Shape, info: OffloadInfo, index: nat)
    requires Ready(z, sh, info, index) && info.csumOffset % 2 == 0
    requires sh.hdrLen + ChunkLen(|z|, sh, info, index) <= 0xffff
    ensures TransportChecks(Segment(z, sh, info, index), sh.v6, sh.protocol, info.csumStart)
            <==> FieldHarmless(z, sh, info, index)
  {
    hide Sum16, Sum32, Norm, PseudoSum, Segment, Draft, OnesSum, PseudoHeader, ReceivedLen, Source, Destination, FieldHarmless;
    var seg, cs := Segment(z, sh, info, index), info.csumStart;
    var len := |seg| - cs;
    LengthField(z, sh, info, index);
    SourceAndDestinationKept(z, sh, info, index);
    BodyCompletes(z, sh, info, index);
    var header := PseudoHeader(seg, sh.v6, sh.protocol, len);
    PseudoHeaderSum(seg, sh.v6, sh.protocol, len);
    PseudoSumIsNorm(Source(z, sh.v6), Destination(z, sh.v6), sh.protocol, len, Sum16(seg[cs..]));
    Sum16Concat(header, seg[cs..]);
    SumFromZero(header + seg[cs..]);
  }

  /** Every emitted TCP or UDP segment passes the receiver's transport check. */
  lemma TransportSums(z: seq<Byte>, sh: Shape, info: OffloadInfo, index: nat)
    requires Ready(z, sh, info, index) && ClearedInput(z, sh, info) && FieldFree(sh, info)
    requires sh.hdrLen + ChunkLen(|z|, sh, info, index) <= 0xffff
    ensures TransportChecks(Segment(z, sh, info, index), sh.v6, sh.protocol, info.csumStart)
  {
    hide Segment, Draft, TransportChecks, Sum16, SenderPseudo;
    FieldStillClear(z, sh, info, index);
    TransportExact(z, sh, info, index);
  }

  /** For UDP the field condition is exact: pointing `csumOffset` at the length field, and nothing
      else that is word aligned, makes every segment fail the check. */
  lemma UdpChecksExactly(z: seq<Byte>, sh: Shape, info: OffloadInfo, index: nat)
    requires Ready(z, sh, info, index) && ClearedInput(z, sh, info)
    requires sh.protocol == UDP && info.csumOffset % 2 == 0
    requires sh.hdrLen + ChunkLen(|z|, sh, info, index) <= 0xffff
    ensures TransportChecks(Segment(z, sh, info, index), sh.v6, sh.protocol, info.csumStart)
            <==> info.csumOffset != 4
  {
    hide Segment, Draft, TransportChecks, Sum16, SenderPseudo;
    if info.csumOffset == 4 {
      TransportExact(z, sh, info, index);
      UdpDraftLength(z, sh, info, index);
    } else {
      TransportSums(z, sh, info, index);
    }
  }

  lemma UdpDraftLength(z: seq<Byte>, sh: Shape, info: OffloadInfo, index: nat)
    requires Ready(z, sh, info, index) && sh.protocol == UDP
    ensures Get16(Draft(z, sh, info, index), info.csumStart as nat + 4)
            == Trunc16(|Draft(z, sh, info, index)| - info.csumStart)
  {
    hide Sum16, Sum32, Norm, PseudoSum, IpRewrite, Finish, Base, Word, High, Low;
    BytesOf(Trunc16(|Draft(z, sh, info, index)| - info.csumStart));
  }

  lemma SumFromZero(s: seq<Byte>)
    ensures OnesSum(s, 0) == Norm(Sum16(s))
  {
    OnesSumIsNorm(s, 0);
  }

  // ----- fields -----

  /** The IP length field tells the segment's real length. */
  lemma LengthField(z: seq<Byte>, sh: Shape, info: OffloadInfo, index: nat)
    requires Ready(z, sh, info, index)
    requires sh.hdrLen + ChunkLen(|z|, sh, info, index) <= 0xffff
    ensures ReceivedLen(Segment(z, sh, info, index), sh.v6, info.csumStart)
            == |Segment(z, sh, info, index)| - info.csumStart
  {
    hide Sum16, Norm, High, Low, Segment, Word, Trunc16, Base;
    IpPart(z, sh, info, index);
    var seg := Segment(z, sh, info, index);
    var ip := IpRewrite(Base(z, sh, info, index), sh, info, index);
    var at := if sh.v6 then 4 else 2;
    assert seg[at] == seg[..info.csumStart][at] == ip[..info.csumStart][at];
    assert seg[at + 1] == seg[..info.csumStart][at + 1] == ip[..info.csumStart][at + 1];
    assert Get16(seg, at) == Get16(ip, at);
    BytesOf(Trunc16(if sh.v6 then |ip| - 40 else |ip|));
  }

  /** The IPv4 identification counts up with the segment number. */
  lemma IdentificationField(z: seq<Byte>, sh: Shape, info: OffloadInfo, index: nat)
    requires Ready(z, sh, info, index) && !sh.v6
    ensures Get16(Segment(z, sh, info, index), 4) == Trunc16(Get16(z, 4) + index)
  {
    hide Sum16, Sum32, Norm, PseudoSum, TransportRewrite, Finish, Base, Word, High, Low, Trunc16;
    BytesOf(Trunc16(Get16(z, 4) + index));
    var base := Base(z, sh, info, index);
    assert Get16(base, 4) == Get16(z, 4);
    var ip, draft, seg := IpRewrite(base, sh, info, index), Draft(z, sh, info, index), Segment(z, sh, info, index);
    assert Get16(ip, 4) == Trunc16(Get16(base, 4) + index);
    assert draft[4] == ip[4] && draft[5] == ip[5];
    assert seg[4] == draft[4] && seg[5] == draft[5];
  }

  lemma TcpFlagByte(z: seq<Byte>, sh: Shape, info: OffloadInfo, index: nat)
    requires Ready(z, sh, info, index) && sh.protocol == TCP
    ensures var at := info.csumStart as nat + TCP_FLAGS_OFFSET;
            Draft(z, sh, info, index)[at]
            == if HasSegment(|z|, sh, info, index + 1) then ClearFinPsh(z[at]) else z[at]
    ensures var at := info.csumStart as nat + 4;
            Get32(Draft(z, sh, info, index), at) == Trunc32(Get32(z, at) + Skip(index, info.gsoSize))
  {
    hide IpRewrite, Base, TcpRewrite, ClearFinPsh, Trunc32, Skip, Word;
    var base := Base(z, sh, info, index);
    var ip := IpRewrite(base, sh, info, index);
    var cs: nat := info.csumStart;
    assert forall i :: cs <= i < cs + 20 ==> ip[i] == z[i];
    assert Get32(ip, cs + 4) == Get32(z, cs + 4);
    TcpRewriteFields(ip, cs, Skip(index, info.gsoSize), !HasSegment(|z|, sh, info, index + 1));
  }

  /** The sequence number advances by the payload offset modulo 2^32; FIN and PSH survive only on
      the last segment, and every other flag on all of them. */
  lemma TcpFields(z: seq<Byte>, sh: Shape, info: OffloadInfo, index: nat)
    requires Ready(z, sh, info, index) && FieldFree(sh, info) && sh.protocol == TCP
    ensures Get32(Segment(z, sh, info, index), info.csumStart as nat + 4)
            == Trunc32(Get32(z, info.csumStart as nat + 4) + Skip(index, info.gsoSize))
    ensures info.csumOffset != 12 ==>
              var at := info.csumStart as nat + TCP_FLAGS_OFFSET;
              Segment(z, sh, info, index)[at]
              == if HasSegment(|z|, sh, info, index + 1) then ClearFinPsh(z[at]) else z[at]
  {
    hide Draft, Finish, ClearFinPsh, Trunc32, Skip;
    var cs: nat := info.csumStart;
    TcpFlagByte(z, sh, info, index);
    var draft, seg := Draft(z, sh, info, index), Segment(z, sh, info, index);
    assert forall i :: cs + 4 <= i < cs + 8 ==> seg[i] == draft[i];
    assert Get32(seg, cs + 4) == Get32(draft, cs + 4);
  }

  /** The UDP length field is the length of the datagram in this segment. */
  lemma UdpLengthField(z: seq<Byte>, sh: Shape, info: OffloadInfo, index: nat)
    requires Ready(z, sh, info, index) && FieldFree(sh, info) && sh.protocol == UDP
    ensures Get16(Segment(z, sh, info, index), info.csumStart as nat + 4)
            == Trunc16(|Segment(z, sh, info, index)| - info.csumStart)
  {
    hide Draft, Finish, Trunc16;
    var at: nat := info.csumStart + 4;
    var draft, seg := Draft(z, sh, info, index), Segment(z, sh, info, index);
    UdpDraftLength(z, sh, info, index);
    assert seg[at] == draft[at] && seg[at + 1] == draft[at + 1];
  }

  /** Every header byte outside the rewritten fields is the input's. */
  lemma OtherHeaderBytesKept(z: seq<Byte>, sh: Shape, info: OffloadInfo, index: nat, i: nat)
    requires Ready(z, sh, info, index) && i < sh.hdrLen
    requires i < info.csumStart ==>
               if sh.v6 then !(4 <= i < 6) else !(2 <= i < 6) && !(10 <= i < 12)
    requires !(ChecksumAt(info) <= i < ChecksumAt(info) + 2)
    requires i >= info.csumStart && sh.protocol == TCP ==>
               !(4 <= i - info.csumStart < 8) && i - info.csumStart != TCP_FLAGS_OFFSET
    requires i >= info.csumStart && sh.protocol == UDP ==> !(4 <= i - info.csumStart < 6)
    ensures Segment(z, sh, info, index)[i] == z[i]
  {
  }

  /** The segments of a packet whose metadata agrees with its header are accepted as they stand. */
  lemma SegmentAccepted(z: seq<Byte>, sh: Shape, info: OffloadInfo, index: nat)
    requires Ready(z, sh, info, index) && ClearedInput(z, sh, info) && FieldFree(sh, info) && Describes(z, sh, info)
    requires sh.hdrLen + ChunkLen(|z|, sh, info, index) <= 0xffff
    ensures Accepts(Segment(z, sh, info, index))
  {
    hide Segment, TransportChecks, Ipv4HeaderChecks, Version, Ihl, Word, Skip;
    var seg := Segment(z, sh, info, index);
    OtherHeaderBytesKept(z, sh, info, index, 0);
    OtherHeaderBytesKept(z, sh, info, index, if sh.v6 then 6 else 9);
    LengthField(z, sh, info, index);
    TransportSums(z, sh, info, index);
    if !sh.v6 {
      Ipv4HeaderSums(z, sh, info, index);
    }
  }

  // ----- nothing is lost -----

  lemma PayloadPart(z: seq<Byte>, sh: Shape, info: OffloadInfo, index: nat)
    requires Ready(z, sh, info, index)
    ensures Segment(z, sh, info, index)[sh.hdrLen..]
            == z[sh.hdrLen + Skip(index, info.gsoSize)..sh.hdrLen + Skip(index, info.gsoSize) + ChunkLen(|z|, sh, info, index)]
  {
    hide Sum16, Sum32, Norm, PseudoSum, IpRewrite, TransportRewrite, Finish;
    var at := sh.hdrLen + Skip(index, info.gsoSize);
    var base := Base(z, sh, info, index);
    assert base[sh.hdrLen..] == z[at..at + ChunkLen(|z|, sh, info, index)];
    var ip := IpRewrite(base, sh, info, index);
    var draft, seg := Draft(z, sh, info, index), Segment(z, sh, info, index);
    assert forall i :: sh.hdrLen <= i < |seg| ==> ip[i] == base[i];
    assert forall i :: sh.hdrLen <= i < |seg| ==> draft[i] == base[i];
    assert forall i :: sh.hdrLen <= i < |seg| ==> seg[i] == base[i];
    assert seg[sh.hdrLen..] == base[sh.hdrLen..];
  }

  /** Segment numbers below the count are exactly those with payload left. */
  lemma CountIsExact(len: nat, sh: Shape, info: OffloadInfo, index: nat)
    requires info.gsoSize > 0 && sh.hdrLen <= len
    ensures HasSegment(len, sh, info, index) <==> index < SegmentCount(len - sh.hdrLen, info.gsoSize)
  {
    CountAndSkip(len - sh.hdrLen, info.gsoSize, index);
  }

  lemma {:induction false} CountAndSkip(payloadLen: nat, gsoSize: nat, index: nat)
    requires gsoSize > 0
    ensures Skip(index, gsoSize) < payloadLen <==> index < SegmentCount(payloadLen, gsoSize)
    decreases index
  {
    if index > 0 && payloadLen > gsoSize {
      CountAndSkip(payloadLen - gsoSize, gsoSize, index - 1);
    }
  }

  lemma {:induction false} SkipGrows(index: nat, gsoSize: nat)
    requires gsoSize > 0
    ensures Skip(index, gsoSize) >= index
  {
    if index > 0 {
      SkipGrows(index - 1, gsoSize);
    }
  }

  /** The payloads of segments `from` and later, joined. */
  function Payloads(z: seq<Byte>, sh: Shape, info: OffloadInfo, from: nat): seq<Byte>
    requires Splittable(z, sh, info)
    decreases |z| - from
  {
    if !HasSegment(|z|, sh, info, from) then []
    else
      assert from < |z| by { SkipGrows(from, info.gsoSize); }
      Segment(z, sh, info, from)[sh.hdrLen..] + Payloads(z, sh, info, from + 1)
  }

  /** The segment payloads concatenate to what was left of the original payload. */
  lemma {:induction false} PayloadsFrom(z: seq<Byte>, sh: Shape, info: OffloadInfo, from: nat)
    requires Splittable(z, sh, info)
    ensures Payloads(z, sh, info, from)
            == if HasSegment(|z|, sh, info, from) then z[sh.hdrLen + Skip(from, info.gsoSize)..] else []
    decreases |z| - from
  {
    hide Segment;
    if HasSegment(|z|, sh, info, from) {
      assert from < |z| by { SkipGrows(from, info.gsoSize); }
      PayloadPart(z, sh, info, from);
      PayloadsFrom(z, sh, info, from + 1);
    }
  }

  /** Splitting loses nothing, and only the last segment may be short. */
  lemma NothingLost(z: seq<Byte>, sh: Shape, info: OffloadInfo)
    requires Splittable(z, sh, info)
    ensures Payloads(z, sh, info, 0) == z[sh.hdrLen..]
    ensures forall i: nat :: HasSegment(|z|, sh, info, i + 1) ==>
              HasSegment(|z|, sh, info, i) && |Segment(z, sh, info, i)| == sh.hdrLen + info.gsoSize
  {
    hide Segment;
    PayloadsFrom(z, sh, info, 0);
    forall i: nat | HasSegment(|z|, sh, info, i + 1)
      ensures HasSegment(|z|, sh, info, i) && |Segment(z, sh, info, i)| == sh.hdrLen + info.gsoSize
    {
      assert Skip(i + 1, info.gsoSize) == Skip(i, info.gsoSize) + info.gsoSize;
    }
  }
}

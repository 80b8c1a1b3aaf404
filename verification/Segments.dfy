/**
 What `split_gso_packet` of `src/core/packet.rs` puts into each output segment, as functions of the
 input, and what a receiver of those segments computes.
 */
module Segments {
  import Bits
  import opened Common
  import opened Checksum

  const TCP: Byte := 6
  const UDP: Byte := 17
  const UDP_HEADER_LEN := 8
  const TCP_FLAGS_OFFSET := 13

  datatype GsoType = NoGso | TcpV4 | TcpV6 | UdpL4 | Other(raw: Byte)

  datatype OffloadInfo = OffloadInfo(
    gsoType: GsoType, gsoSize: U16, hdrLen: U16, csumStart: U16, csumOffset: U16, needsCsum: bool)

  datatype Error =
    | PacketEmpty | InvalidIpVersion | GsoTypeMismatch | UnsupportedGsoType
    | ShorterThanUdpHeader | TooShortForTcp | InvalidTcpHeaderLen | ShorterThanTcpHeader
    | ChecksumOutOfBounds | NotEnoughSlots | OffsetOverflow | SlotTooSmall | NoOffloadInfo

  datatype Result<T> = Ok(value: T) | Err(error: Error)

  // ----- validation -----

  datatype Shape = Shape(v6: bool, protocol: Byte, hdrLen: nat)

  function ProtocolOf(t: GsoType, v6: bool): Result<Byte> {
    match t
    case TcpV4 => if v6 then Err(GsoTypeMismatch) else Ok(TCP)
    case TcpV6 => if v6 then Ok(TCP) else Err(GsoTypeMismatch)
    case UdpL4 => Ok(UDP)
    case _ => Err(UnsupportedGsoType)
  }

  predicate ChecksumInBounds(len: nat, info: OffloadInfo) {
    info.csumStart + info.csumOffset + 1 < len
  }

  function ValidatedHdrLen(input: seq<Byte>, info: OffloadInfo, protocol: Byte): (r: Result<nat>)
    ensures r.Ok? ==> info.csumStart + 8 <= r.value <= |input| && r.value <= info.csumStart + 60
    ensures r.Ok? && protocol != UDP ==> info.csumStart + 20 <= r.value
  {
    if protocol == UDP then
      var h := info.csumStart as nat + UDP_HEADER_LEN;
      if |input| < h then Err(ShorterThanUdpHeader)
      else if !ChecksumInBounds(|input|, info) then Err(ChecksumOutOfBounds)
      else Ok(h)
    else if |input| <= info.csumStart + 12 then Err(TooShortForTcp)
    else
      var tcpHdrLen: nat := (input[info.csumStart + 12] / 16) * 4;
      if !(20 <= tcpHdrLen <= 60) then Err(InvalidTcpHeaderLen)
      else if |input| < info.csumStart + tcpHdrLen then Err(ShorterThanTcpHeader)
      else if !ChecksumInBounds(|input|, info) then Err(ChecksumOutOfBounds)
      else Ok(info.csumStart + tcpHdrLen)
  }

  /** Everything the code decides before it starts to write. */
  function ParseShape(input: seq<Byte>, info: OffloadInfo): (r: Result<Shape>)
    ensures r.Ok? ==> info.csumStart + 8 <= r.value.hdrLen <= |input| && r.value.hdrLen <= info.csumStart + 60
    ensures r.Ok? ==> r.value.protocol == TCP || r.value.protocol == UDP
    ensures r.Ok? && r.value.protocol == TCP ==> info.csumStart + 20 <= r.value.hdrLen
  {
    if |input| == 0 then Err(PacketEmpty)
    else
      var version := input[0] / 16;
      if version != 4 && version != 6 then Err(InvalidIpVersion)
      else
        var v6 := version == 6;
        match ProtocolOf(info.gsoType, v6)
        case Err(e) => Err(e)
        case Ok(protocol) =>
          match ValidatedHdrLen(input, info, protocol)
          case Err(e) => Err(e)
          case Ok(h) => Ok(Shape(v6, protocol, h))
  }

  /** Which packets are refused, and why: the first failing check decides. */
  lemma RefusedFor(input: seq<Byte>, info: OffloadInfo)
    ensures var r := ParseShape(input, info);
            && (r == Err(PacketEmpty) <==> input == [])
            && (r == Err(InvalidIpVersion) <==> input != [] && !(0x40 <= input[0] < 0x50) && !(0x60 <= input[0] < 0x70))
            && (r == Err(GsoTypeMismatch) <==>
                  input != [] && ((0x60 <= input[0] < 0x70 && info.gsoType == TcpV4) || (0x40 <= input[0] < 0x50 && info.gsoType == TcpV6)))
            && (r == Err(UnsupportedGsoType) <==>
                  && input != [] && (0x40 <= input[0] < 0x50 || 0x60 <= input[0] < 0x70)
                  && (info.gsoType == NoGso || info.gsoType.Other?))
            && r != Err(NotEnoughSlots) && r != Err(OffsetOverflow) && r != Err(SlotTooSmall) && r != Err(NoOffloadInfo)
  {
  }

  /** The header length comes from the packet: 8 bytes of UDP, or as many 32-bit words as the data offset
      of the TCP header says, at least five; and header and checksum field must fit. */
  lemma HeaderLengthExactly(input: seq<Byte>, info: OffloadInfo, protocol: Byte, h: nat)
    requires protocol == TCP || protocol == UDP
    ensures ValidatedHdrLen(input, info, protocol) == Ok(h) <==>
              && h <= |input| && info.csumStart + info.csumOffset + 2 <= |input|
              && if protocol == UDP then h == info.csumStart + 8
                 else
                   && info.csumStart + 12 < |input| && 0x50 <= input[info.csumStart + 12]
                   && h == info.csumStart + input[info.csumStart + 12] / 16 * 4
    ensures ValidatedHdrLen(input, info, protocol) == Err(ChecksumOutOfBounds) ==>
              info.csumStart + info.csumOffset + 2 > |input|
  {
  }

  /** The metadata shape the code does not check: the IP header precedes `csumStart`, and the
      checksum field lies in the transport header. */
  predicate WellFormed(sh: Shape, info: OffloadInfo) {
    && (if sh.v6 then 40 else 20) <= info.csumStart
    && info.csumStart + info.csumOffset + 2 <= sh.hdrLen
  }

  /** The checksum field is word aligned and none of the fields the split rewrites. */
  predicate FieldFree(sh: Shape, info: OffloadInfo) {
    && info.csumOffset % 2 == 0
    && info.csumOffset != 4
    && (sh.protocol == TCP ==> info.csumOffset != 6)
  }

  // ----- the pieces -----

  /** `payload_len.div_ceil(gso_size)`, by repeated subtraction. */
  function SegmentCount(payloadLen: nat, gsoSize: nat): nat
    requires gsoSize > 0
    decreases payloadLen
  {
    if payloadLen == 0 then 0 else if payloadLen <= gsoSize then 1 else 1 + SegmentCount(payloadLen - gsoSize, gsoSize)
  }

  lemma {:induction false} SegmentCountIsDivCeil(payloadLen: nat, gsoSize: nat)
    requires gsoSize > 0
    ensures SegmentCount(payloadLen, gsoSize) == (payloadLen + gsoSize - 1) / gsoSize
    decreases payloadLen
  {
    if payloadLen == 0 {
      Bits.DivModUnique(gsoSize - 1, gsoSize, 0, gsoSize - 1);
    } else if payloadLen <= gsoSize {
      Bits.DivModUnique(payloadLen + gsoSize - 1, gsoSize, 1, payloadLen - 1);
    } else {
      SegmentCountIsDivCeil(payloadLen - gsoSize, gsoSize);
      Bits.DivModUnique(payloadLen + gsoSize - 1, gsoSize, (payloadLen - 1) / gsoSize + 1, (payloadLen - 1) % gsoSize);
    }
  }

  /** The payload offset of a segment, `index * gso_size`. */
  function Skip(index: nat, gsoSize: nat): nat {
    if index == 0 then 0 else Skip(index - 1, gsoSize) + gsoSize
  }

  lemma {:induction false} SkipIsProduct(index: nat, gsoSize: nat)
    ensures Skip(index, gsoSize) == index * gsoSize
  {
    if index > 0 {
      SkipIsProduct(index - 1, gsoSize);
    }
  }

  predicate HasSegment(len: nat, sh: Shape, info: OffloadInfo, index: nat) {
    info.gsoSize > 0 && sh.hdrLen + Skip(index, info.gsoSize) < len
  }

  function ChunkLen(len: nat, sh: Shape, info: OffloadInfo, index: nat): (r: nat)
    requires HasSegment(len, sh, info, index)
    ensures 0 < r <= info.gsoSize && sh.hdrLen + Skip(index, info.gsoSize) + r <= len
  {
    var left := len - sh.hdrLen - Skip(index, info.gsoSize);
    if left < info.gsoSize then left else info.gsoSize
  }

  function ChecksumAt(info: OffloadInfo): nat { info.csumStart + info.csumOffset }

  /** The input with its checksum fields cleared. */
  function Cleared(input: seq<Byte>, sh: Shape, info: OffloadInfo): (r: seq<Byte>)
    requires WellFormed(sh, info) && sh.hdrLen <= |input|
    ensures |r| == |input|
  {
    var a := if sh.v6 then input else Put16(input, 10, 0);
    Put16(a, ChecksumAt(info), 0)
  }

  /** Header and payload chunk as copied, before any field is rewritten. */
  function Base(z: seq<Byte>, sh: Shape, info: OffloadInfo, index: nat): (r: seq<Byte>)
    requires HasSegment(|z|, sh, info, index)
    ensures |r| == sh.hdrLen + ChunkLen(|z|, sh, info, index)
    ensures forall i :: 0 <= i < sh.hdrLen ==> r[i] == z[i]
  {
    var at := sh.hdrLen + Skip(index, info.gsoSize);
    z[..sh.hdrLen] + z[at..at + ChunkLen(|z|, sh, info, index)]
  }

  function High16(v: nat): (r: U16)
    requires v < 0x1_0000_0000
    ensures 0x1_0000 * r <= v
  {
    if v < 0x1_0000 then 0 else 1 + High16(v - 0x1_0000)
  }

  function Low16(v: nat): U16
    requires v < 0x1_0000_0000
  {
    if v < 0x1_0000 then v else Low16(v - 0x1_0000)
  }

  lemma {:induction false} HalvesOf(v: nat)
    requires v < 0x1_0000_0000
    ensures 0x1_0000 * High16(v) + Low16(v) == v
  {
    if v >= 0x1_0000 {
      HalvesOf(v - 0x1_0000);
    }
  }

  /** `as u32`, wrapping u32 addition. */
  function Trunc32(n: nat): (r: nat)
    ensures r < 0x1_0000_0000
    ensures n < 0x1_0000_0000 ==> r == n
  {
    if n < 0x1_0000_0000 then n else Trunc32(n - 0x1_0000_0000)
  }

  lemma {:induction false} Trunc32IsMod(n: nat)
    ensures Trunc32(n) == n % 0x1_0000_0000
  {
    if n >= 0x1_0000_0000 {
      Trunc32IsMod(n - 0x1_0000_0000);
    }
  }

  function Put32(s: seq<Byte>, at: nat, v: nat): (r: seq<Byte>)
    requires at + 4 <= |s| && v < 0x1_0000_0000
    ensures |r| == |s|
    ensures forall i :: 0 <= i < |s| && !(at <= i < at + 4) ==> r[i] == s[i]
  {
    Put16(Put16(s, at, High16(v)), at + 2, Low16(v))
  }

  lemma GetPut32(s: seq<Byte>, at: nat, v: nat)
    requires at + 4 <= |s| && v < 0x1_0000_0000
    ensures Get32(Put32(s, at, v), at) == v
  {
    hide Word, High16, Low16;
    HalvesOf(v);
    GetPut16(s, at, High16(v));
    var t := Put16(s, at, High16(v));
    GetPut16(t, at + 2, Low16(v));
    assert Get16(Put32(s, at, v), at) == Get16(t, at);
  }

  function IpRewrite(s: seq<Byte>, sh: Shape, info: OffloadInfo, index: nat): (r: seq<Byte>)
    requires WellFormed(sh, info) && sh.hdrLen <= |s|
    ensures |r| == |s|
    ensures forall i :: 12 <= i < |s| ==> r[i] == s[i]
  {
    if sh.v6 then Put16(s, 4, Trunc16(|s| - 40))
    else
      var a := if index > 0 then Put16(s, 4, Trunc16(Get16(s, 4) + index)) else s;
      var b := Put16(a, 2, Trunc16(|s|));
      Put16(b, 10, 0xffff - Norm(Sum16(b[..info.csumStart])))
  }

  /** `flags & !(FIN | PSH)`. */
  function ClearFinPsh(flags: Byte): (r: Byte)
    ensures r <= flags
  {
    Bits.AndAtMost(flags, 0xf6);
    Bits.And(flags, 0xf6)
  }

  /** Bits 0 (FIN) and 3 (PSH) go, every other bit stays: 0xf6 is 11110110. */
  lemma ClearFinPshBits(high: nat, psh: nat, m1: nat, m0: nat, fin: nat)
    requires high < 16 && psh < 2 && m1 < 2 && m0 < 2 && fin < 2
    ensures ClearFinPsh(2 * (2 * (2 * (2 * high + psh) + m1) + m0) + fin) == 16 * high + 4 * m1 + 2 * m0
  {
    hide Bits.And;
    Bits.AndLowMask(high, 4);
    assert Bits.Pow2(4) == 16 && high % 16 == high;
    Bits.AndStep(high, psh, 0xf, 0);
    Bits.AndStep(2 * high + psh, m1, 0x1e, 1);
    Bits.AndStep(2 * (2 * high + psh) + m1, m0, 0x3d, 1);
    Bits.AndStep(2 * (2 * (2 * high + psh) + m1) + m0, fin, 0x7b, 0);
  }

  /** The transport bytes the split rewrites, apart from the checksum. */
  predicate Rewritten(sh: Shape, cs: nat, i: int) {
    if sh.protocol == TCP then cs + 4 <= i < cs + 8 || i == cs + TCP_FLAGS_OFFSET else cs + 4 <= i < cs + 6
  }

  function TcpRewrite(s: seq<Byte>, cs: nat, advance: nat, last: bool): (r: seq<Byte>)
    requires cs + 20 <= |s|
    ensures |r| == |s|
    ensures forall i :: 0 <= i < |s| && !(cs + 4 <= i < cs + 8) && i != cs + TCP_FLAGS_OFFSET ==> r[i] == s[i]
  {
    var t := Put32(s, cs + 4, Trunc32(Get32(s, cs + 4) + advance));
    if last then t else t[cs + TCP_FLAGS_OFFSET := ClearFinPsh(t[cs + TCP_FLAGS_OFFSET])]
  }

  lemma TcpRewriteFields(s: seq<Byte>, cs: nat, advance: nat, last: bool)
    requires cs + 20 <= |s|
    ensures Get32(TcpRewrite(s, cs, advance, last), cs + 4) == Trunc32(Get32(s, cs + 4) + advance)
    ensures var f := cs + TCP_FLAGS_OFFSET;
            TcpRewrite(s, cs, advance, last)[f] == if last then s[f] else ClearFinPsh(s[f])
  {
    hide Word, Trunc32, ClearFinPsh, Put32;
    var t := Put32(s, cs + 4, Trunc32(Get32(s, cs + 4) + advance));
    var r := TcpRewrite(s, cs, advance, last);
    GetPut32(s, cs + 4, Trunc32(Get32(s, cs + 4) + advance));
    assert Get16(r, cs + 4) == Get16(t, cs + 4) && Get16(r, cs + 6) == Get16(t, cs + 6);
  }

  function TransportRewrite(s: seq<Byte>, sh: Shape, info: OffloadInfo, index: nat, last: bool): (r: seq<Byte>)
    requires WellFormed(sh, info) && sh.hdrLen <= |s|
    requires info.csumStart + 8 <= sh.hdrLen
    requires sh.protocol == TCP ==> info.csumStart + 20 <= sh.hdrLen
    ensures |r| == |s|
    ensures forall i :: 0 <= i < |s| && !Rewritten(sh, info.csumStart, i) ==> r[i] == s[i]
  {
    var cs := info.csumStart;
    if sh.protocol == TCP then TcpRewrite(s, cs, Skip(index, info.gsoSize), last)
    else Put16(s, cs + 4, Trunc16(|s| - cs))
  }

  function AddressAt(v6: bool): nat { if v6 then 8 else 12 }
  function AddressLen(v6: bool): nat { if v6 then 16 else 4 }

  function Source(z: seq<Byte>, v6: bool): seq<Byte>
    requires |z| >= 40 || (!v6 && |z| >= 20)
  {
    z[AddressAt(v6)..AddressAt(v6) + AddressLen(v6)]
  }

  function Destination(z: seq<Byte>, v6: bool): seq<Byte>
    requires |z| >= 40 || (!v6 && |z| >= 20)
  {
    z[AddressAt(v6) + AddressLen(v6)..AddressAt(v6) + 2 * AddressLen(v6)]
  }

  function LengthBytes(protocol: Byte, len: U16): seq<Byte> { [0, protocol, High(len), Low(len)] }

  function PseudoSum(src: seq<Byte>, dst: seq<Byte>, protocol: Byte, len: U16): nat {
    Sum32(src) + Sum32(dst) + Sum32(LengthBytes(protocol, len))
  }

  function Finish(s: seq<Byte>, z: seq<Byte>, sh: Shape, info: OffloadInfo): (r: seq<Byte>)
    requires WellFormed(sh, info) && sh.hdrLen <= |s| && sh.hdrLen <= |z|
    ensures |r| == |s|
    ensures forall i :: 0 <= i < |s| && !(ChecksumAt(info) <= i < ChecksumAt(info) + 2) ==> r[i] == s[i]
  {
    var cs := info.csumStart;
    var pseudo := PseudoSum(Source(z, sh.v6), Destination(z, sh.v6), sh.protocol, Trunc16(|s| - cs));
    Put16(s, ChecksumAt(info), 0xffff - Norm(pseudo + Sum16(s[cs..])))
  }

  predicate Splittable(z: seq<Byte>, sh: Shape, info: OffloadInfo) {
    && WellFormed(sh, info)
    && info.gsoSize > 0
    && info.csumStart + 8 <= sh.hdrLen <= |z|
    && (sh.protocol == TCP || sh.protocol == UDP)
    && (sh.protocol == TCP ==> info.csumStart + 20 <= sh.hdrLen)
  }

  predicate Ready(z: seq<Byte>, sh: Shape, info: OffloadInfo, index: nat) {
    Splittable(z, sh, info) && HasSegment(|z|, sh, info, index)
  }

  function Draft(z: seq<Byte>, sh: Shape, info: OffloadInfo, index: nat): (r: seq<Byte>)
    requires Ready(z, sh, info, index)
    ensures |r| == sh.hdrLen + ChunkLen(|z|, sh, info, index)
    ensures forall i :: 12 <= i < sh.hdrLen && !Rewritten(sh, info.csumStart, i) ==> r[i] == z[i]
  {
    TransportRewrite(IpRewrite(Base(z, sh, info, index), sh, info, index), sh, info, index,
                     !HasSegment(|z|, sh, info, index + 1))
  }

  /** The bytes of output segment `index`; z is the cleared input. */
  function Segment(z: seq<Byte>, sh: Shape, info: OffloadInfo, index: nat): (r: seq<Byte>)
    requires Ready(z, sh, info, index)
    ensures |r| == sh.hdrLen + ChunkLen(|z|, sh, info, index)
    ensures forall i :: 12 <= i < info.csumStart ==> r[i] == z[i]
  {
    Finish(Draft(z, sh, info, index), z, sh, info)
  }
}

/**
 The Internet checksum of `src/core/packet.rs`: 32-bit big-endian words are added into a u64 and
 the accumulator is folded to 16 bits. The reference is the definition of RFC 1071: 16-bit words
 added one at a time in one's-complement arithmetic (end-around carry).
 */
module Checksum {
  import opened Common

  type U16 = x: int | 0 <= x < 0x1_0000
  type U64 = x: int | 0 <= x < 0x1_0000_0000_0000_0000

  const U64_SIZE := 0x1_0000_0000_0000_0000

  function Word(hi: Byte, lo: Byte): U16 { 256 * hi + lo }

  /** The two bytes of `to_be_bytes`, by repeated subtraction so that they stay folded in proofs. */
  function High(v: U16): (r: Byte)
    ensures 256 * r <= v
  {
    if v < 256 then 0 else 1 + High(v - 256)
  }

  function Low(v: U16): Byte {
    if v < 256 then v else Low(v - 256)
  }

  lemma {:induction false} BytesOf(v: U16)
    ensures Word(High(v), Low(v)) == v
  {
    if v >= 256 {
      BytesOf(v - 256);
    }
  }

  /** `as u16`. */
  function Trunc16(n: nat): (r: U16)
    ensures n < 0x1_0000 ==> r == n
  {
    if n < 0x1_0000 then n else Trunc16(n - 0x1_0000)
  }

  lemma {:induction false} Trunc16IsMod(n: nat)
    ensures Trunc16(n) == n % 0x1_0000
  {
    if n >= 0x1_0000 {
      Trunc16IsMod(n - 0x1_0000);
    }
  }

  function Get16(s: seq<Byte>, at: nat): U16
    requires at + 2 <= |s|
  {
    Word(s[at], s[at + 1])
  }

  function Get32(s: seq<Byte>, at: nat): nat
    requires at + 4 <= |s|
  {
    0x1_0000 * Get16(s, at) + Get16(s, at + 2)
  }

  function Put16(s: seq<Byte>, at: nat, v: U16): (r: seq<Byte>)
    requires at + 2 <= |s|
    ensures |r| == |s| && r[at] == High(v) && r[at + 1] == Low(v)
    ensures forall i :: 0 <= i < |s| && !(at <= i < at + 2) ==> r[i] == s[i]
  {
    s[at := High(v)][at + 1 := Low(v)]
  }

  lemma GetPut16(s: seq<Byte>, at: nat, v: U16)
    requires at + 2 <= |s|
    ensures Get16(Put16(s, at, v), at) == v
  {
    BytesOf(v);
  }

  // ----- reference: one's-complement addition of 16-bit words -----

  function OnesAdd(a: U16, b: U16): U16 {
    if a + b > 0xffff then a + b - 0xffff else a + b
  }

  /** One's-complement sum of the 16-bit words of s; an odd last byte is padded with zero. */
  function OnesSum(s: seq<Byte>, acc: U16): U16 {
    if |s| == 0 then acc
    else if |s| == 1 then OnesAdd(acc, Word(s[0], 0))
    else OnesSum(s[2..], OnesAdd(acc, Word(s[0], s[1])))
  }

  /** One's-complement sum of the 16-bit digits of a wide initial value. */
  function OnesDigits(n: nat): U16 {
    if n == 0 then 0 else OnesAdd(OnesDigits(n / 0x1_0000), n % 0x1_0000)
  }

  // ----- integer view -----

  function Sum16(s: seq<Byte>): nat {
    if |s| == 0 then 0
    else if |s| == 1 then Word(s[0], 0)
    else Word(s[0], s[1]) + Sum16(s[2..])
  }

  /** What the loop accumulates: 32-bit words, then a 16-bit word, then a padded byte. */
  function Sum32(s: seq<Byte>): nat {
    if |s| < 4 then Sum16(s) else Get32(s, 0) + Sum32(s[4..])
  }

  /** The sum of the upper halves of the 32-bit words. */
  function Highs(s: seq<Byte>): nat {
    if |s| < 4 then 0 else Get16(s, 0) + Highs(s[4..])
  }

  /** The representative of n modulo 65535 that folding ends on: 0 only for n == 0. */
  function Norm(n: nat): (r: U16)
    ensures r == 0 <==> n == 0
  {
    if n <= 0xffff then n else Norm(n - 0xffff)
  }

  lemma {:induction false} NormShift(n: nat, k: nat)
    requires n > 0 || k == 0
    ensures Norm(n + 0xffff * k) == Norm(n)
    decreases k
  {
    if k > 0 {
      NormShift(n, k - 1);
    }
  }

  /** How many times 65535 goes into n above its representative. */
  lemma {:induction false} NormSplit(n: nat) returns (q: nat)
    ensures n == Norm(n) + 0xffff * q
  {
    if n <= 0xffff {
      q := 0;
    } else {
      q := NormSplit(n - 0xffff);
      q := q + 1;
    }
  }

  lemma OnesAddIsNorm(a: nat, b: U16)
    ensures OnesAdd(Norm(a), b) == Norm(a + b)
  {
    if a > 0 {
      var q := NormSplit(a);
      NormShift(Norm(a) + b, q);
      assert a + b == Norm(a) + b + 0xffff * q;
    }
  }

  lemma {:induction false} OnesSumIsNorm(s: seq<Byte>, a: nat)
    ensures OnesSum(s, Norm(a)) == Norm(a + Sum16(s))
    decreases |s|
  {
    if |s| == 1 {
      OnesAddIsNorm(a, Word(s[0], 0));
    } else if |s| >= 2 {
      OnesAddIsNorm(a, Word(s[0], s[1]));
      OnesSumIsNorm(s[2..], a + Word(s[0], s[1]));
    }
  }

  lemma {:induction false} OnesDigitsIsNorm(n: nat)
    ensures OnesDigits(n) == Norm(n)
  {
    if n > 0 {
      var hi, lo := n / 0x1_0000, n % 0x1_0000;
      OnesDigitsIsNorm(hi);
      OnesAddIsNorm(hi, lo);
      NormShift(hi + lo, hi);
      assert n == hi + lo + 0xffff * hi;
    }
  }

  lemma {:induction false} Sum32Splits(s: seq<Byte>)
    ensures Sum32(s) == Sum16(s) + 0xffff * Highs(s)
    ensures Highs(s) <= Sum16(s)
    decreases |s|
  {
    if |s| >= 4 {
      Sum32Splits(s[4..]);
      assert s[2..][2..] == s[4..];
      assert Sum16(s) == Get16(s, 0) + Sum16(s[2..]) == Get16(s, 0) + Get16(s, 2) + Sum16(s[4..]);
    }
  }

  /** 32-bit accumulation agrees with the 16-bit sum, including which sums are zero. */
  lemma Sum32IsNorm(s: seq<Byte>, a: nat)
    ensures Norm(a + Sum32(s)) == Norm(a + Sum16(s))
    ensures a + Sum32(s) == 0 <==> a + Sum16(s) == 0
  {
    Sum32Splits(s);
    if a + Sum16(s) > 0 {
      NormShift(a + Sum16(s), Highs(s));
    }
  }

  /** How large the accumulator can get: at most 2^30 for each byte, rounded up. */
  lemma {:induction false} Sum32Bound(s: seq<Byte>)
    ensures Sum32(s) <= 0x4000_0000 * (|s| + 3)
    decreases |s|
  {
    if |s| >= 4 {
      Sum32Bound(s[4..]);
    } else if |s| >= 2 {
      assert Sum32(s) == Word(s[0], s[1]) + Sum16(s[2..]);
    }
  }

  /** Packets of up to 2^32 bytes and initial values below 2^63 never overflow the u64. */
  lemma PacketSizedNeverOverflows(s: seq<Byte>, initial: U64)
    requires |s| <= 0x1_0000_0000
    requires initial < 0x8000_0000_0000_0000
    ensures initial + Sum32(s) < U64_SIZE
  {
    hide Sum32;
    Sum32Bound(s);
  }

  /** The value `checksum` returns, as RFC 1071 defines it. */
  function Reference(s: seq<Byte>, initial: nat): U16 {
    OnesSum(s, OnesDigits(initial))
  }

  lemma ReferenceIsNorm(s: seq<Byte>, initial: nat)
    ensures Reference(s, initial) == Norm(initial + Sum16(s))
  {
    OnesDigitsIsNorm(initial);
    OnesSumIsNorm(s, initial);
  }

  // ----- the code -----

  /** The value of n in a u64, by repeated subtraction. */
  function Wrap(n: nat): (r: U64)
    ensures n < U64_SIZE ==> r == n
  {
    if n < U64_SIZE then n else Wrap(n - U64_SIZE)
  }

  lemma {:induction false} WrapIsMod(n: nat)
    ensures Wrap(n) == n % U64_SIZE
  {
    if n >= U64_SIZE {
      WrapIsMod(n - U64_SIZE);
    }
  }

  lemma {:induction false} WrapAdd(a: nat, b: nat)
    ensures Wrap(Wrap(a) + b) == Wrap(a + b)
    decreases a
  {
    if a >= U64_SIZE {
      WrapAdd(a - U64_SIZE, b);
    }
  }

  /** Adds with u64 wrap-around; callers show that no wrap happens. */
  method ChecksumNoFold(bytes: seq<Byte>, initial: U64) returns (accumulator: U64)
    ensures accumulator == Wrap(initial + Sum32(bytes))
  {
    hide Wrap, Word, Get32;
    accumulator := initial;
    var rest := bytes;
    while |rest| >= 4
      invariant Wrap(accumulator + Sum32(rest)) == Wrap(initial + Sum32(bytes))
    {
      WrapAdd(accumulator + Get32(rest, 0), Sum32(rest[4..]));
      accumulator := Wrap(accumulator + Get32(rest, 0));
      rest := rest[4..];
    }
    if |rest| >= 2 {
      WrapAdd(accumulator + Get16(rest, 0), Sum16(rest[2..]));
      accumulator := Wrap(accumulator + Get16(rest, 0));
      rest := rest[2..];
    }
    assert Wrap(accumulator + Sum16(rest)) == Wrap(initial + Sum32(bytes));
    if |rest| > 0 {
      accumulator := Wrap(accumulator + Word(rest[0], 0));
    }
  }

  lemma NormSmall(n: nat)
    requires n <= 0xffff
    ensures Norm(n) == n
  {
  }

  lemma FoldStep(n: nat)
    requires n > 0xffff
    ensures Norm(n % 0x1_0000 + n / 0x1_0000) == Norm(n)
    ensures n % 0x1_0000 + n / 0x1_0000 < n
  {
    var lo, hi := n % 0x1_0000, n / 0x1_0000;
    NormShift(lo + hi, hi);
    assert n == lo + hi + 0xffff * hi;
  }

  /** `checksum` computes the RFC 1071 sum whenever the u64 does not overflow. */
  method Checksum(bytes: seq<Byte>, initial: U64) returns (r: U16)
    ensures initial + Sum32(bytes) < U64_SIZE ==> r == Reference(bytes, initial)
  {
    hide Norm, Sum32, Sum16, Reference;
    var accumulator := ChecksumNoFold(bytes, initial);
    ghost var start := accumulator;
    while accumulator > 0xffff
      invariant Norm(accumulator) == Norm(start)
      decreases accumulator
    {
      FoldStep(accumulator);
      accumulator := accumulator % 0x1_0000 + accumulator / 0x1_0000;
    }
    r := accumulator;
    NormSmall(accumulator);
    if initial + Sum32(bytes) < U64_SIZE {
      Sum32IsNorm(bytes, initial);
      ReferenceIsNorm(bytes, initial);
    }
  }

  // ----- how sums react to concatenation and field updates -----

  lemma {:induction false} Sum16Concat(a: seq<Byte>, b: seq<Byte>)
    requires |a| % 2 == 0
    ensures Sum16(a + b) == Sum16(a) + Sum16(b)
    decreases |a|
  {
    if |a| == 0 {
      assert a + b == b;
    } else {
      assert (a + b)[2..] == a[2..] + b;
      Sum16Concat(a[2..], b);
    }
  }

  lemma {:induction false} Sum16Put(s: seq<Byte>, at: nat, v: U16)
    requires at % 2 == 0 && at + 2 <= |s|
    ensures Sum16(Put16(s, at, v)) == Sum16(s) - Get16(s, at) + v
    decreases |s|
  {
    var r := Put16(s, at, v);
    GetPut16(s, at, v);
    if at == 0 {
      assert r[2..] == s[2..];
    } else {
      assert r[2..] == Put16(s[2..], at - 2, v);
      Sum16Put(s[2..], at - 2, v);
    }
  }

  /**
   Writing the complement of a sum into one of the summed fields makes the whole add up to 0xffff
   exactly when that field was zero (or negative zero, unless it was all there was).
   */
  lemma CompleteField(s: seq<Byte>, at: nat, initial: nat)
    requires at % 2 == 0 && at + 2 <= |s|
    ensures Norm(initial + Sum16(Put16(s, at, 0xffff - Norm(initial + Sum16(s))))) == 0xffff
            <==> Get16(s, at) == 0 || (Get16(s, at) == 0xffff && initial + Sum16(s) != 0xffff)
  {
    var t, w := initial + Sum16(s), Get16(s, at);
    var c := 0xffff - Norm(t);
    hide Put16, Sum16, Get16;
    Sum16Put(s, at, c);
    FieldWithin(s, at);
    var u := t - w + c;
    if t > 0 {
      var q := NormSplit(t);
      assert u == 0xffff * (q + 1) - w;
      NormBelow(q, w);
    }
  }

  lemma NormBelow(q: nat, w: U16)
    ensures Norm(0xffff * (q + 1) - w) == 0xffff <==> w == 0 || (w == 0xffff && q > 0)
  {
    if w == 0 {
      NormShift(0xffff, q);
    } else if w < 0xffff {
      NormShift(0xffff - w, q);
    } else if q > 0 {
      NormShift(0xffff, q - 1);
    }
  }

  lemma {:induction false} FieldWithin(s: seq<Byte>, at: nat)
    requires at % 2 == 0 && at + 2 <= |s|
    ensures Get16(s, at) <= Sum16(s)
    decreases |s|
  {
    if at > 0 {
      FieldWithin(s[2..], at - 2);
    }
  }
}

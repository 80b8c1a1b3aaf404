/** The provided-buffer ring of `src/core/rx.rs` and what happens to its buffers. */
module RxRing {
  import Bits
  import opened Common

  const U16_SIZE := 0x1_0000

  /** One `io_uring_buf` entry. The `resv` field of entry 0 is the tail word shared with the kernel. */
  datatype Desc = Desc(addr: nat, len: nat, bid: nat, resv: nat)

  datatype Ring = Ring(n: nat, bufferLen: nat, descs: seq<Desc>, tail: nat, active: bool)

  predicate PowerOfTwo(n: nat, k: nat) { k <= 15 && n == Bits.Pow2(k) }

  /** The slot picked by masking the 16-bit tail. */
  function MaskedSlot(r: Ring, tail: nat): nat
    requires r.n > 0
  {
    Bits.And(tail, r.n - 1)
  }

  /** The entry shows the whole of the buffer it names. Buffers are addressed by their number. */
  predicate OwnBuffer(d: Desc, bufferLen: nat) { d.addr == d.bid && d.len == bufferLen }

  /** `write_buffer_descriptor`: clears the reserved word of the entry it writes. */
  function WriteDescriptor(r: Ring, tail: nat, bid: nat): Ring
    requires r.n > 0 && MaskedSlot(r, tail) < |r.descs|
  {
    r.(descs := r.descs[MaskedSlot(r, tail) := Desc(bid, r.bufferLen, bid, 0)])
  }

  /** `advance_locked`: wrapping u16 addition, then the shared word. */
  function Advance(r: Ring, count: nat): Ring
    requires |r.descs| > 0
  {
    var tail := (r.tail + count) % U16_SIZE;
    r.(tail := tail, descs := r.descs[0 := r.descs[0].(resv := tail)])
  }

  function Recycle(r: Ring, bid: nat): Ring
    requires r.n > 0 && MaskedSlot(r, r.tail) < |r.descs|
  {
    if !r.active then r else Advance(WriteDescriptor(r, r.tail, bid), 1)
  }

  // ----- the masked tail and an unbounded counter -----

  /** `c mod n`, by repeated subtraction. */
  function Slot(n: nat, c: nat): (r: nat)
    requires n > 0
    ensures r < n
    decreases c
  {
    if c < n then c else Slot(n, c - n)
  }

  lemma {:induction false} SlotIsMod(n: nat, c: nat)
    requires n > 0
    ensures Slot(n, c) == c % n
    decreases c
  {
    if c >= n {
      SlotIsMod(n, c - n);
      Bits.DivModUnique(c, n, (c - n) / n + 1, (c - n) % n);
    }
  }

  lemma {:induction false} SlotsDiffer(n: nat, a: nat, b: nat)
    requires n > 0 && a < b < a + n
    ensures Slot(n, a) != Slot(n, b)
    decreases b
  {
    if a >= n {
      SlotsDiffer(n, a - n, b - n);
    } else if b >= n {
      assert b - n < n;
    }
  }

  lemma {:induction false} ModMod(x: nat, j: nat, k: nat)
    requires k <= j
    ensures x % Bits.Pow2(j) % Bits.Pow2(k) == x % Bits.Pow2(k)
    decreases k
  {
    if k > 0 {
      var y := x % Bits.Pow2(j);
      Bits.ModDouble(x, Bits.Pow2(j - 1));
      Bits.ModDouble(x, Bits.Pow2(k - 1));
      Bits.ModDouble(y, Bits.Pow2(k - 1));
      assert y / 2 == x / 2 % Bits.Pow2(j - 1) && y % 2 == x % 2;
      ModMod(x / 2, j - 1, k - 1);
    }
  }

  lemma Pow2Of16()
    ensures Bits.Pow2(16) == U16_SIZE
  {
    assert Bits.Pow2(4) == 16;
    assert Bits.Pow2(8) == 256;
    assert Bits.Pow2(12) == 4096;
  }

  /** For any number of publications the wrapped, masked tail is the unbounded counter modulo n. */
  lemma MaskedTailIsCounter(r: Ring, k: nat, count: nat)
    requires PowerOfTwo(r.n, k)
    ensures MaskedSlot(r, count % U16_SIZE) == Slot(r.n, count)
  {
    hide Bits.And, Bits.Pow2, Slot;
    Pow2Of16();
    Bits.AndLowMask(count % U16_SIZE, k);
    ModMod(count, 16, k);
    SlotIsMod(r.n, count);
  }

  /** The kernel's own 16-bit subtraction of its head from the shared tail gives the exact number
      of published buffers. */
  lemma KernelSeesWindow(published: nat, consumed: nat)
    requires consumed <= published < consumed + U16_SIZE
    ensures (published % U16_SIZE - consumed % U16_SIZE) % U16_SIZE == published - consumed
  {
    var a, b := published / U16_SIZE, consumed / U16_SIZE;
    Bits.DivModUnique(published % U16_SIZE - consumed % U16_SIZE, U16_SIZE, b - a, published - consumed);
  }

  // ----- the code -----

  class ProvidedBuffers {
    const n: nat
    const bufferLen: nat
    ghost const k: nat
    const ring: array<Desc>
    var tail: nat
    var active: bool
    /** All publications so far, as an unbounded number. */
    ghost var published: nat

    ghost function Contents(): Ring
      reads this, ring
    {
      Ring(n, bufferLen, ring[..], tail, active)
    }

    /** Holds whenever the mutex is free. */
    ghost predicate Valid()
      reads this, ring
    {
      && PowerOfTwo(n, k) && ring.Length == n
      && tail == published % U16_SIZE
      && ring[0].resv == tail
      && (forall i :: 0 <= i < n && i < published ==> OwnBuffer(ring[i], bufferLen))
    }

    constructor (n: nat, ghost k: nat, bufferLen: nat)
      requires PowerOfTwo(n, k)
      ensures Valid() && Contents() == Ring(n, bufferLen, ring[..], 0, true) && published == 0 && fresh(ring)
    {
      this.n, this.k, this.bufferLen, tail, active, published := n, k, bufferLen, 0, true, 0;
      ring := new Desc[n](_ => Desc(0, 0, 0, 0));
    }

    method WriteBufferDescriptor(at: nat, bid: nat)
      requires ring.Length == n > 0 && MaskedSlot(Contents(), at) < n
      modifies ring
      ensures Contents() == WriteDescriptor(old(Contents()), at, bid)
    {
      ring[Bits.And(at, n - 1)] := Desc(bid, bufferLen, bid, 0);
    }

    method AdvanceLocked(count: nat)
      requires ring.Length > 0
      modifies this`tail, ring
      ensures Contents() == Advance(old(Contents()), count)
    {
      tail := (tail + count) % U16_SIZE;
      ring[0] := ring[0].(resv := tail);
    }

    /** The freed buffer goes to the slot of the unbounded counter, every other entry keeps its
        buffer, and the shared word is right again although entry 0 may just have been cleared. */
    method RecycleBuffer(bid: nat)
      requires Valid()
      modifies this`tail, this`published, ring
      ensures Valid()
      ensures MaskedSlot(old(Contents()), old(tail)) == Slot(n, old(published))
      ensures Contents() == Recycle(old(Contents()), bid)
      ensures published == old(published) + (if active then 1 else 0)
    {
      hide MaskedSlot, Bits.Pow2, Slot;
      MaskedTailIsCounter(Contents(), k, published);
      if !active {
        return;
      }
      if published < n {
        SmallCount(n, k, published);
      }
      WriteBufferDescriptor(tail, bid);
      AdvanceLocked(1);
      published := published + 1;
      NextTail(published - 1, 1);
    }

    /** Publishes every buffer once, in order. */
    method PublishAll()
      requires Valid() && tail == 0 && published == 0
      modifies this`tail, this`published, ring
      ensures Valid() && published == n && active == old(active)
      ensures forall i :: 0 <= i < n ==> ring[i].bid == i && ring[i].addr == i && ring[i].len == bufferLen
    {
      hide MaskedSlot, Bits.Pow2;
      var bid := 0;
      while bid < n
        invariant 0 <= bid <= n && tail == 0
        invariant forall i :: 0 <= i < bid ==> ring[i].bid == i && ring[i].addr == i && ring[i].len == bufferLen
      {
        MaskedTailIsCounter(Contents(), k, bid);
        SmallCount(n, k, bid);
        WriteBufferDescriptor((tail + bid) % U16_SIZE, bid);
        bid := bid + 1;
      }
      AdvanceLocked(n);
      published := n;
    }

    method Deactivate()
      modifies this`active
      ensures !active
    {
      active := false;
    }
  }

  lemma NextTail(published: nat, count: nat)
    ensures (published % U16_SIZE + count) % U16_SIZE == (published + count) % U16_SIZE
  {
  }

  lemma {:induction false} Pow2Monotone(a: nat, b: nat)
    requires a <= b
    ensures Bits.Pow2(a) <= Bits.Pow2(b)
    decreases b - a
  {
    if a < b {
      Pow2Monotone(a + 1, b);
    }
  }

  lemma SmallCount(n: nat, k: nat, c: nat)
    requires PowerOfTwo(n, k) && c < n
    ensures c % U16_SIZE == c && Slot(n, c) == c
  {
    Pow2Of16();
    Pow2Monotone(k, 16);
  }
}

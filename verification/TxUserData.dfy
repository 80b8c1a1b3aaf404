/** The 64-bit user_data codec of `src/core/tx.rs`. */
module TxUserData {
  import Bits

  const TX_WRITE_KIND := 0x5458_5700_0000_0000
  const TX_CANCEL_KIND := 0x5458_4300_0000_0000
  const TX_KIND_MASK := 0xffff_ff00_0000_0000
  const TX_INDEX_MASK := 0x0000_00ff_ffff_ffff
  const INDEX_LIMIT := 0x100_0000_0000

  datatype Kind = Write(index: nat) | Cancel(index: nat) | Unknown

  function WriteUserData(index: nat): nat { Bits.Or(TX_WRITE_KIND, Bits.And(index, TX_INDEX_MASK)) }

  function CancelUserData(index: nat): nat { Bits.Or(TX_CANCEL_KIND, Bits.And(index, TX_INDEX_MASK)) }

  function UserDataKind(userData: nat): Kind {
    var index := Bits.And(userData, TX_INDEX_MASK);
    var kind := Bits.And(userData, TX_KIND_MASK);
    if kind == TX_WRITE_KIND then Write(index)
    else if kind == TX_CANCEL_KIND then Cancel(index)
    else Unknown
  }

  lemma {:induction false} ShrShl(a: nat, k: nat, low: nat)
    requires low < Bits.Pow2(k)
    ensures Bits.Shr(Bits.Shl(a, k) + low, k) == a
    decreases k
  {
    if k > 0 {
      ShrShl(a, k - 1, low / 2);
    }
  }

  lemma Pow2By8(k: nat)
    ensures Bits.Pow2(k + 8) == 256 * Bits.Pow2(k)
  {
    assert Bits.Pow2(k + 4) == 16 * Bits.Pow2(k) by {
      assert Bits.Pow2(k + 2) == 4 * Bits.Pow2(k);
    }
    assert Bits.Pow2(k + 8) == 16 * Bits.Pow2(k + 4) by {
      assert Bits.Pow2(k + 6) == 4 * Bits.Pow2(k + 4);
    }
  }

  lemma Powers()
    ensures Bits.Pow2(24) == 0x100_0000 && Bits.Pow2(40) == INDEX_LIMIT
  {
    assert Bits.Pow2(0) == 1;
    hide Bits.Pow2;
    Pow2By8(0);
    Pow2By8(8);
    Pow2By8(16);
    Pow2By8(24);
    Pow2By8(32);
  }

  lemma Constants()
    ensures Bits.Pow2(40) == INDEX_LIMIT && Bits.Pow2(24) == 0x100_0000
    ensures Bits.Shl(0x545857, 40) == TX_WRITE_KIND && Bits.Shl(0x545843, 40) == TX_CANCEL_KIND
    ensures Bits.Shl(0xffffff, 40) == TX_KIND_MASK
  {
    hide Bits.Pow2, Bits.Shl;
    Powers();
    ShlMultiple(0x545857, 40);
    ShlMultiple(0x545843, 40);
    ShlMultiple(0xffffff, 40);
  }

  /** Masking an encoded value recovers both halves; `kind` is a 24-bit tag. */
  lemma Halves(kind: nat, index: nat)
    requires kind < 0x100_0000
    ensures var ud := Bits.Or(Bits.Shl(kind, 40), Bits.And(index, TX_INDEX_MASK));
            && Bits.And(ud, TX_INDEX_MASK) == index % INDEX_LIMIT
            && Bits.And(ud, TX_KIND_MASK) == Bits.Shl(kind, 40)
  {
    hide Bits.And, Bits.Or, Bits.Shl, Bits.Shr, Bits.Pow2;
    Constants();
    var low := index % INDEX_LIMIT;
    Bits.AndLowMask(index, 40);
    Bits.OrDisjoint(kind, 40, low);
    var ud := Bits.Shl(kind, 40) + low;
    Bits.AndLowMask(ud, 40);
    ShlMultiple(kind, 40);
    Bits.DivModUnique(ud, INDEX_LIMIT, kind, low);
    Bits.AndShifted(ud, 40, 0xffffff);
    ShrShl(kind, 40, low);
    Bits.AndLowMask(kind, 24);
  }

  lemma {:induction false} ShlMultiple(a: nat, k: nat)
    ensures Bits.Shl(a, k) == Bits.Pow2(k) * a
    decreases k
  {
    if k > 0 {
      ShlMultiple(a, k - 1);
    }
  }

  /** Decoding an encoded write gives back its index exactly when the index fits in 40 bits. */
  lemma WriteRoundTrip(index: nat)
    ensures UserDataKind(WriteUserData(index)) == Write(index % INDEX_LIMIT)
    ensures UserDataKind(WriteUserData(index)) == Write(index) <==> index < INDEX_LIMIT
  {
    hide Bits.And, Bits.Or, Bits.Shl;
    Constants();
    Halves(0x545857, index);
  }

  lemma CancelRoundTrip(index: nat)
    ensures UserDataKind(CancelUserData(index)) == Cancel(index % INDEX_LIMIT)
    ensures UserDataKind(CancelUserData(index)) == Cancel(index) <==> index < INDEX_LIMIT
  {
    hide Bits.And, Bits.Or, Bits.Shl;
    Constants();
    Halves(0x545843, index);
  }
}

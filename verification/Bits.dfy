/** Single bits of a 64-bit word. A bit's position is a 6-bit number, which is all a shift of a word looks at. */
module Bits {
  function Position(k: nat): bv6
    requires k < 64
  {
    k as bv6
  }

  function Mask(p: bv6): bv64 { (1 as bv64) << p }

  function WithBit(w: bv64, p: bv6): bv64 { w | Mask(p) }

  predicate Test(w: bv64, p: bv6) { w & Mask(p) != 0 }

  lemma PositionRoundTrip(k: nat)
    requires k < 64
    ensures Position(k) as nat == k
  {}

  lemma PositionsDiffer(a: nat, b: nat)
    requires a < 64 && b < 64
    ensures Position(a) == Position(b) <==> a == b
  {
    PositionRoundTrip(a);
    PositionRoundTrip(b);
  }

  lemma PositionNext(k: nat, p: bv6)
    requires k < 63 && p == Position(k)
    ensures p < 63 && Position(k + 1) == p + 1
  {
    PositionRoundTrip(k);
    PositionRoundTrip(k + 1);
  }

  lemma MaskNext(p: bv6)
    requires p < 63
    ensures Mask(p + 1) == Mask(p) << 1
  {}

  lemma MaskFirst()
    ensures Mask(0) == 1
  {}

  /** The bits of a word are numbered from the least significant one: the first mask is 1, and each next mask is the
      one before moved up a place. */
  lemma {:induction false} MaskOrder(k: nat)
    requires k < 63
    ensures Mask(Position(0)) == 1
    ensures Mask(Position(k + 1)) == Mask(Position(k)) << 1
  {
    PositionRoundTrip(0);
    MaskFirst();
    PositionNext(k, Position(k));
    MaskNext(Position(k));
  }

  lemma OrMask(w: bv64, p: bv6, q: bv6)
    ensures (w | Mask(p)) & Mask(q) != 0 <==> p == q || w & Mask(q) != 0
  {}

  /** Setting the bit at p changes that bit and no other. */
  lemma SetBit(w: bv64, p: bv6, q: bv6)
    ensures Test(WithBit(w, p), q) <==> p == q || Test(w, q)
  {
    OrMask(w, p, q);
  }

  lemma NoBit(q: bv6)
    ensures !Test(0, q)
  {}
}

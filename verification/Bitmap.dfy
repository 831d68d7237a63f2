/** The free-block bitmap of fs.c: bit b%8 of byte b/8 says whether block b is in use. */
module Bitmap {
  type Bytes = seq<bv8>

  function Mask(k: int): bv8
    requires 0 <= k < 8
  {
    if k == 0 then 0x01 else if k == 1 then 0x02 else if k == 2 then 0x04 else if k == 3 then 0x08
    else if k == 4 then 0x10 else if k == 5 then 0x20 else if k == 6 then 0x40 else 0x80
  }

  predicate Has(x: bv8, k: int)
    requires 0 <= k < 8
  {
    x & Mask(k) != 0
  }

  function With(x: bv8, k: int): bv8
    requires 0 <= k < 8
  {
    x | Mask(k)
  }

  function Clear(x: bv8, k: int): bv8
    requires 0 <= k < 8
  {
    x & !Mask(k)
  }

  predicate Bit(bm: Bytes, b: int)
    requires 0 <= b < 8 * |bm|
  {
    Has(bm[b / 8], b % 8)
  }

  function SetBit(bm: Bytes, b: int): (r: Bytes)
    requires 0 <= b < 8 * |bm|
    ensures |r| == |bm|
  {
    bm[b / 8 := With(bm[b / 8], b % 8)]
  }

  function ClearBit(bm: Bytes, b: int): (r: Bytes)
    requires 0 <= b < 8 * |bm|
    ensures |r| == |bm|
  {
    bm[b / 8 := Clear(bm[b / 8], b % 8)]
  }

  lemma WithHas(x: bv8, k: int, m: int)
    requires 0 <= k < 8 && 0 <= m < 8
    ensures Has(With(x, k), m) <==> m == k || Has(x, m)
  {
  }

  lemma ClearHas(x: bv8, k: int, m: int)
    requires 0 <= k < 8 && 0 <= m < 8
    ensures Has(Clear(x, k), m) <==> m != k && Has(x, m)
  {
  }

  lemma SamePlace(b: int, c: int)
    ensures b == c <==> b / 8 == c / 8 && b % 8 == c % 8
  {
  }

  /** Marking a block changes its bit and no other. */
  lemma SetBitAt(bm: Bytes, b: int, c: int)
    requires 0 <= b < 8 * |bm| && 0 <= c < 8 * |bm|
    ensures Bit(SetBit(bm, b), c) <==> c == b || Bit(bm, c)
  {
    hide Has, With, Clear;
    SamePlace(b, c);
    if b / 8 == c / 8 {
      WithHas(bm[b / 8], b % 8, c % 8);
    }
  }

  /** Freeing a block changes its bit and no other. */
  lemma ClearBitAt(bm: Bytes, b: int, c: int)
    requires 0 <= b < 8 * |bm| && 0 <= c < 8 * |bm|
    ensures Bit(ClearBit(bm, b), c) <==> c != b && Bit(bm, c)
  {
    hide Has, With, Clear;
    SamePlace(b, c);
    if b / 8 == c / 8 {
      ClearHas(bm[b / 8], b % 8, c % 8);
    }
  }
}

/** Bytes as bit vectors and as numbers. */
module Bytes {
  lemma OrZero(b: bv8)
    ensures 0 | b == b
  {
  }

  lemma IntAsByte(b: bv8)
    ensures (b as int) as bv8 == b
  {
  }

  lemma NextByte(b: bv8)
    requires b < 255
    ensures (b + 1) as int == b as int + 1
  {
  }

  lemma {:induction false} ByteAsInt(i: nat)
    requires i < 256
    ensures (i as bv8) as int == i
  {
    if i == 0 {
      IntAsByte(0);
    } else {
      ByteAsInt(i - 1);
      var b := (i - 1) as bv8;
      NextByte(b);
      IntAsByte(b + 1);
    }
  }

  lemma SameByte(a: bv8, b: bv8)
    requires a as int == b as int
    ensures a == b
  {
    IntAsByte(a);
    IntAsByte(b);
  }
}

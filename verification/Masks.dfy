/**
 Full-width masks that are 0 or -1 (vendor-sntrup761/sntrup761.c:344-360).
 */
module Masks {
  import opened DivMod

  // -1 if x != 0, else 0: v = -(uint16_t)x as uint32_t; v >>= 31; return -v.
  method Int16NonzeroMask(x: int) returns (mask: int)
    requires -0x8000 <= x < 0x8000
    ensures mask == if x != 0 then -1 else 0
  {
    var u: int := U16(x);
    var v: int := U32(-u);
    v := v / TWO31;
    mask := -v;
  }

  // -1 if x < 0, else 0: u = (uint16_t)x; u >>= 15; return -u.
  method Int16NegativeMask(x: int) returns (mask: int)
    requires -0x8000 <= x < 0x8000
    ensures mask == if x < 0 then -1 else 0
  {
    var u: int := U16(x);
    u := u / 0x8000;
    mask := -u;
  }
}

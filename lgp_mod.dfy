// The byte-to-opcode conversion of src/lgp/mod.rs: a byte outside the
// opcode range is folded onto it modulo the opcode count.
module LgpMod {
  import opened Common
  import opened LgpOp

  /** `u8_to_opcode`: the opcode whose discriminant is `v % COUNT`; the
    * conversion's `unwrap` cannot fail because the discriminants are
    * contiguous from 0. */
  function U8ToOpcode(v: U8): (c: Opcode)
    ensures Disc(c) == v % Count
  {
    FromDisc(v % Count)
  }

  /** Below `COUNT` the conversion is the inverse of the discriminant, and
    * above it repeats with period `COUNT`. */
  lemma U8ToOpcodeFacts(v: U8, c: Opcode)
    ensures v < Count ==> Disc(U8ToOpcode(v)) == v
    ensures U8ToOpcode(Disc(c) as U8) == c
    ensures v + Count < 256 ==> U8ToOpcode((v + Count) as U8) == U8ToOpcode(v)
  {
    DiscContiguous(c, 0);
    if v + Count < 256 {
      assert (v + Count) % Count == v % Count;
      DiscContiguous(U8ToOpcode(v), v % Count);
    }
  }
}

// The byte-coded instruction of src/lgp/op.rs: fourteen opcodes with
// contiguous discriminants, three data bytes, how many of them an opcode
// uses, random instructions, micro-mutation and a distance.
module LgpOp {
  import opened Common
  import opened Mutation
  import VmOp

  datatype Opcode = Nop | Add | Sub | Mul | Div | Abs | Neg | Pow | Log | Load | Copy | Jlt | Jle | Jeq

  /** `Opcode::COUNT`. */
  const Count: nat := 14

  /** The `repr(u8)` discriminant of each opcode, in declaration order. */
  function Disc(c: Opcode): (d: nat)
    ensures d < Count
  {
    match c
    case Nop => 0 case Add => 1 case Sub => 2 case Mul => 3 case Div => 4
    case Abs => 5 case Neg => 6 case Pow => 7 case Log => 8 case Load => 9
    case Copy => 10 case Jlt => 11 case Jle => 12 case Jeq => 13
  }

  /** `try_from_primitive`: every value below `Count` is a discriminant, so
    * the `unwrap` never fails on such a value. */
  function FromDisc(v: nat): (c: Opcode)
    requires v < Count
    ensures Disc(c) == v
  {
    [Nop, Add, Sub, Mul, Div, Abs, Neg, Pow, Log, Load, Copy, Jlt, Jle, Jeq][v]
  }

  /** The discriminants are exactly 0 to 13, one per opcode. */
  lemma DiscContiguous(c: Opcode, v: nat)
    requires v < Count
    ensures FromDisc(Disc(c)) == c
    ensures Disc(FromDisc(v)) == v
  {
  }

  datatype Op = Op(code: Opcode, data: VmOp.Data)

  /** `Op::num_operands`. */
  function NumOperands(c: Opcode): (n: nat)
    ensures n <= 3
    ensures n == 0 <==> c == Nop
    ensures n == 1 <==> c in {Abs, Neg, Log}
    ensures n == 3 <==> c in {Load, Jlt, Jle, Jeq}
  {
    match c
    case Nop => 0
    case Abs | Neg | Log => 1
    case Add | Sub | Mul | Div | Pow | Copy => 2
    case Load | Jlt | Jle | Jeq => 3
  }

  /** The opcodes whose second data byte names a register. */
  predicate TwoRegisters(c: Opcode) {
    c in {Add, Sub, Mul, Div, Pow, Copy, Jlt, Jle, Jeq}
  }

  /** `Op::rand` with its draws: the opcode draw `v` from [0, COUNT), the
    * raw register draws `u0` and `u1`, and two random bytes. Both
    * registers are drawn whatever the opcode, so `None` (the panic of an
    * empty range) happens exactly when there are no registers. */
  function Rand(numReg: nat, v: nat, u0: nat, u1: nat, imm0: U8, imm1: U8): (r: Option<Op>)
    requires v < Count
    ensures r.None? <==> numReg == 0
    ensures r.Some? ==> r.value.code == FromDisc(v)
    ensures r.Some? ==> forall i :: NumOperands(r.value.code) <= i < 3 ==> r.value.data[i] == 0
    ensures r.Some? && numReg <= 256 && r.value.code != Nop ==> r.value.data[0] < numReg
    ensures r.Some? && numReg <= 256 && TwoRegisters(r.value.code) ==> r.value.data[1] < numReg
  {
    var c := FromDisc(v);
    var rx, ry := Draw(u0, numReg), Draw(u1, numReg);
    if rx.None? || ry.None? then None
    else
      var x, y := rx.value, ry.value;
      var data: VmOp.Data := match c
        case Nop => [0, 0, 0]
        case Add | Sub | Mul | Div | Pow | Copy => [x, y, 0]
        case Abs | Neg | Log => [x, 0, 0]
        case Load => [x, imm0, imm1]
        case Jlt | Jle | Jeq => [x, y, imm0];
      Some(Op(c, data))
  }

  /** `Op::mutate` with its draws: the byte `idx` drawn from the used ones,
    * and the difference and direction of `mutate_creep(_, 64)`. */
  function Mutate(op: Op, idx: nat, diff: nat, down: bool): (r: Op)
    requires NumOperands(op.code) > 0 ==> idx < NumOperands(op.code)
    requires diff < 64
    ensures r.code == op.code
    ensures op.code == Nop ==> r == op
    ensures forall i :: 0 <= i < 3 && i != idx ==> r.data[i] == op.data[i]
    ensures NumOperands(op.code) > 0 ==> -64 < r.data[idx] - op.data[idx] < 64
  {
    if NumOperands(op.code) == 0 then op
    else Op(op.code, op.data[idx := MutateCreep(op.data[idx], 64, diff, down, 0, 255)])
  }

  /** A mutated instruction differs in at most one used byte. */
  lemma MutateChangesOneUsedByte(op: Op, idx: nat, diff: nat, down: bool)
    requires NumOperands(op.code) > 0 ==> idx < NumOperands(op.code)
    requires diff < 64
    ensures forall i :: 0 <= i < 3 && Mutate(op, idx, diff, down).data[i] != op.data[i] ==>
      i == idx && i < NumOperands(op.code)
  {
  }

  function DistOf(a: Op, b: Op): nat {
    (if a.code != b.code then 100 else 0) + VmOp.ByteDist(a.data, b.data)
  }

  /** `Op::dist`: 100 for differing opcodes plus the byte-wise absolute
    * differences, summed in the order of the data bytes. */
  method Dist(a: Op, b: Op) returns (d: nat)
    ensures d == DistOf(a, b)
  {
    d := 0;
    if a.code != b.code {
      d := d + 100;
    }
    var i := 0;
    while i < 3
      invariant 0 <= i <= 3
      invariant d + VmOp.ByteDist(a.data[i..], b.data[i..]) == DistOf(a, b)
    {
      assert a.data[i..][1..] == a.data[i + 1..];
      assert b.data[i..][1..] == b.data[i + 1..];
      d := d + VmOp.AbsDiff(a.data[i], b.data[i]);
      i := i + 1;
    }
  }

  /** The distance is symmetric, zero exactly on equal instructions, and
    * adds 100 when the opcodes differ. */
  lemma DistFacts(a: Op, b: Op)
    ensures DistOf(a, b) == DistOf(b, a)
    ensures DistOf(a, b) == 0 <==> a == b
    ensures a.code != b.code ==> DistOf(a, b) >= 100
    ensures DistOf(a, b) <= 100 + 3 * 255
  {
    VmOp.ByteDistFacts(a.data, b.data);
  }
}

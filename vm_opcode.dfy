// The register-machine instruction set of src/evaluators/lgp/vm/opcode.rs:
// thirteen opcodes, four operand shapes, and which registers each shape
// reads and writes.
module VmOpcode {
  import opened Common

  /** The operand shapes. `imm` is an `f32`, modelled as a real. */
  datatype Operands =
    | Reg2Cmp(ra: U8, rb: U8)
    | Reg2Assign(ri: U8, ra: U8)
    | Reg3Assign(ri: U8, ra: U8, rb: U8)
    | ImmAssign(ri: U8, imm: real)

  datatype Opcode = Add | Sub | Mul | Div | Pow | Abs | Neg | Ln | Sin | Cos | Load | Copy | IfLt

  /** An instruction of this machine: an opcode together with its operands.
    * `Op::from_code` pairs an opcode with the zeroed shape `operands()`
    * gives it. */
  datatype Op = Op(code: Opcode, operands: Operands)

  /** The registers an instruction reads. */
  function InputRegs(o: Operands): (r: seq<U8>)
    ensures |r| <= 2
    ensures r == [] <==> o.ImmAssign?
    ensures o.Reg2Assign? ==> r == [o.ra]
    ensures o.Reg3Assign? || o.Reg2Cmp? ==> r == [o.ra, o.rb]
  {
    match o
    case Reg2Assign(_, ra) => [ra]
    case Reg3Assign(_, ra, rb) => [ra, rb]
    case Reg2Cmp(ra, rb) => [ra, rb]
    case ImmAssign(_, _) => []
  }

  /** The registers an instruction writes: at most one, and none for a
    * comparison. */
  function OutputRegs(o: Operands): (r: seq<U8>)
    ensures |r| <= 1
    ensures r == [] <==> o.Reg2Cmp?
    ensures !o.Reg2Cmp? ==> r == [o.ri]
  {
    match o
    case Reg2Cmp(_, _) => []
    case Reg2Assign(ri, _) => [ri]
    case Reg3Assign(ri, _, _) => [ri]
    case ImmAssign(ri, _) => [ri]
  }

  /** `Opcode::operands`: the operand shape of each opcode, all fields zero. */
  function OperandsOf(c: Opcode): (o: Operands)
    ensures c in {Add, Sub, Mul, Div, Pow} <==> o.Reg3Assign?
    ensures c in {Abs, Neg, Ln, Sin, Cos, Copy} <==> o.Reg2Assign?
    ensures c == Load <==> o.ImmAssign?
    ensures c == IfLt <==> o.Reg2Cmp?
    ensures forall r :: r in InputRegs(o) + OutputRegs(o) ==> r == 0
    ensures o.ImmAssign? ==> o.imm == 0.0
  {
    match c
    case Add | Sub | Mul | Div | Pow => Reg3Assign(0, 0, 0)
    case Abs | Neg | Ln | Sin | Cos | Copy => Reg2Assign(0, 0)
    case Load => ImmAssign(0, 0.0)
    case IfLt => Reg2Cmp(0, 0)
  }

  predicate IsBranch(c: Opcode) {
    c == IfLt
  }

  /** An opcode is a branch exactly when its shape writes no register. */
  lemma BranchIffNoOutput(c: Opcode)
    ensures IsBranch(c) <==> OutputRegs(OperandsOf(c)) == []
  {
  }

  /** `Op::from_code`. */
  function FromCode(c: Opcode): (op: Op)
    ensures op.code == c && SameShape(op.operands, OperandsOf(c))
  {
    Op(c, OperandsOf(c))
  }

  predicate SameShape(a: Operands, b: Operands) {
    (a.Reg2Cmp? && b.Reg2Cmp?) || (a.Reg2Assign? && b.Reg2Assign?) ||
    (a.Reg3Assign? && b.Reg3Assign?) || (a.ImmAssign? && b.ImmAssign?)
  }

  /** The instruction carries the operand shape its opcode calls for. */
  predicate WellShaped(op: Op) {
    SameShape(op.operands, OperandsOf(op.code))
  }
}

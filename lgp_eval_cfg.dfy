// The configuration of the LGP evaluator, src/evaluators/lgp/cfg.rs: how
// many registers and constants programs may use, and the two random
// operations on single instructions, `rand_op` and `mutate`, which draw
// register numbers from those ranges.
module LgpEvalCfg {
  import opened Common
  import opened VmOpcode

  datatype Cfg = Cfg(
    numReg: nat,
    numConst: nat,
    outputRegs: seq<U8>,
    maxCode: nat,
    /** Significant figures of generated immediates. */
    immSf: nat,
    immLo: real,
    immHi: real,
    opcodes: set<Opcode>)

  /** Every opcode of the instruction set. */
  const AllOpcodes: set<Opcode> := {Add, Sub, Mul, Div, Pow, Abs, Neg, Ln, Sin, Cos, Load, Copy, IfLt}

  /** `LgpEvaluatorCfg::new`: four registers, no constants, output r0,
    * at most 100 instructions, two significant figures, immediates in
    * [-100, 100], every opcode enabled. */
  function New(): Cfg {
    Cfg(4, 0, [0], 100, 2, -100.0, 100.0, AllOpcodes)
  }

  /** Locations an instruction may read: registers, then constants. */
  function MemSize(cfg: Cfg): nat { cfg.numReg + cfg.numConst }

  /** Every register an instruction writes is below `numReg`, and every one
    * it reads is below `memSize`. */
  predicate RegsInRange(op: Op, numReg: nat, memSize: nat) {
    (forall r :: r in OutputRegs(op.operands) ==> r < numReg) &&
    (forall r :: r in InputRegs(op.operands) ==> r < memSize)
  }

  /** `rand_op` with its draws: the opcode `c` that `choose` picks from
    * the enabled set, raw register draws `u0`, `u1`, `u2` in operand
    * order, and the rounded immediate `imm`. `None` is a panic: no opcode
    * enabled, or a register range that is empty. */
  function RandOp(cfg: Cfg, c: Opcode, u0: nat, u1: nat, u2: nat, imm: real): (r: Option<Op>)
    requires cfg.opcodes != {} ==> c in cfg.opcodes
    ensures cfg.opcodes == {} ==> r.None?
    ensures r.Some? ==> r.value.code in cfg.opcodes && WellShaped(r.value)
    ensures r.Some? && MemSize(cfg) <= 256 ==> RegsInRange(r.value, cfg.numReg, MemSize(cfg))
    ensures cfg.opcodes != {} && cfg.numReg > 0 ==> r.Some?
  {
    if cfg.opcodes == {} then None
    else
      var n, m := cfg.numReg, MemSize(cfg);
      match OperandsOf(c)
      case Reg2Cmp(_, _) =>
        var ra, rb := Draw(u0, m), Draw(u1, m);
        if ra.None? || rb.None? then None else Some(Op(c, Reg2Cmp(ra.value, rb.value)))
      case Reg2Assign(_, _) =>
        var ri, ra := Draw(u0, n), Draw(u1, m);
        if ri.None? || ra.None? then None else Some(Op(c, Reg2Assign(ri.value, ra.value)))
      case Reg3Assign(_, _, _) =>
        var ri, ra, rb := Draw(u0, n), Draw(u1, m), Draw(u2, m);
        if ri.None? || ra.None? || rb.None? then None else Some(Op(c, Reg3Assign(ri.value, ra.value, rb.value)))
      case ImmAssign(_, _) =>
        var ri := Draw(u0, n);
        if ri.None? then None else Some(Op(c, ImmAssign(ri.value, imm)))
  }

  /** The default configuration draws an instruction whatever the draws. */
  lemma DefaultRandOpTotal(c: Opcode, u0: nat, u1: nat, u2: nat, imm: real)
    ensures RandOp(New(), c, u0, u1, u2, imm).Some?
    ensures RegsInRange(RandOp(New(), c, u0, u1, u2, imm).value, 4, 4)
  {
    assert c in AllOpcodes;
  }

  /** The number of fields that differ between two operand values of the
    * same shape. */
  function Changed(a: Operands, b: Operands): nat
    requires SameShape(a, b)
  {
    match a
    case Reg2Cmp(ra, rb) => (if ra != b.ra then 1 else 0) + (if rb != b.rb then 1 else 0)
    case Reg2Assign(ri, ra) => (if ri != b.ri then 1 else 0) + (if ra != b.ra then 1 else 0)
    case Reg3Assign(ri, ra, rb) =>
      (if ri != b.ri then 1 else 0) + (if ra != b.ra then 1 else 0) + (if rb != b.rb then 1 else 0)
    case ImmAssign(ri, imm) => (if ri != b.ri then 1 else 0) + (if imm != b.imm then 1 else 0)
  }

  /** `mutate` with its draws: the coin `first` that picks between the two
    * fields of a two-field shape, the raw draw `which` that picks one of
    * three registers, the raw register draw `u`, and `imm`, the mutated
    * and rounded immediate. One field is redrawn; `None` is the panic of an
    * empty register range. */
  function Mutate(cfg: Cfg, op: Op, first: bool, which: nat, u: nat, imm: real): (r: Option<Op>)
    ensures r.Some? ==> r.value.code == op.code && SameShape(r.value.operands, op.operands)
    ensures r.Some? ==> Changed(op.operands, r.value.operands) <= 1
    ensures r.Some? && MemSize(cfg) <= 256 && RegsInRange(op, cfg.numReg, MemSize(cfg)) ==>
      RegsInRange(r.value, cfg.numReg, MemSize(cfg))
  {
    var n, m := cfg.numReg, MemSize(cfg);
    match op.operands
    case Reg2Cmp(ra, rb) =>
      assert ra in InputRegs(op.operands) && rb in InputRegs(op.operands);
      var v := Draw(u, m);
      if v.None? then None
      else if first then Some(Op(op.code, Reg2Cmp(v.value, rb)))
      else Some(Op(op.code, Reg2Cmp(ra, v.value)))
    case Reg2Assign(ri, ra) =>
      assert ri in OutputRegs(op.operands) && ra in InputRegs(op.operands);
      var v := if first then Draw(u, n) else Draw(u, m);
      if v.None? then None
      else if first then Some(Op(op.code, Reg2Assign(v.value, ra)))
      else Some(Op(op.code, Reg2Assign(ri, v.value)))
    case Reg3Assign(ri, ra, rb) =>
      var k := which % 3;
      assert ri in OutputRegs(op.operands) && ra in InputRegs(op.operands) && rb in InputRegs(op.operands);
      var v := if k == 0 then Draw(u, n) else Draw(u, m);
      if v.None? then None
      else if k == 0 then Some(Op(op.code, Reg3Assign(v.value, ra, rb)))
      else if k == 1 then Some(Op(op.code, Reg3Assign(ri, v.value, rb)))
      else Some(Op(op.code, Reg3Assign(ri, ra, v.value)))
    case ImmAssign(ri, oldImm) =>
      if first then
        var v := Draw(u, n);
        if v.None? then None else Some(Op(op.code, ImmAssign(v.value, oldImm)))
      else Some(Op(op.code, ImmAssign(ri, imm)))
  }

  /** A mutation of a drawn instruction is again one that `rand_op` could
    * have drawn: same opcode, same shape, registers in range. */
  lemma MutateKeepsDrawable(cfg: Cfg, c: Opcode, u0: nat, u1: nat, u2: nat, imm: real,
                            first: bool, which: nat, u: nat, imm2: real)
    requires cfg.opcodes != {} ==> c in cfg.opcodes
    requires MemSize(cfg) <= 256
    requires RandOp(cfg, c, u0, u1, u2, imm).Some?
    ensures var op := RandOp(cfg, c, u0, u1, u2, imm).value;
      var r := Mutate(cfg, op, first, which, u, imm2);
      r.Some? ==> r.value.code in cfg.opcodes && WellShaped(r.value) && RegsInRange(r.value, cfg.numReg, MemSize(cfg))
  {
  }

  /** Once `numReg` is positive, every mutation succeeds. */
  lemma MutateTotal(cfg: Cfg, op: Op, first: bool, which: nat, u: nat, imm: real)
    requires cfg.numReg > 0
    ensures Mutate(cfg, op, first, which, u, imm).Some?
  {
  }
}

// The register machine of src/evaluators/lgp/vm/lgpvm.rs. Memory holds
// `num_reg` writable registers followed by read-only constants; code only
// moves forward (a comparison may skip one instruction), so every run stops.
module VmLgpVm {
  import opened Common
  import opened VmOpcode
  import VmCfg

  /** The `f64` result of an arithmetic opcode on its operands, or `None`
    * when it is not finite. Unary opcodes receive 0.0 as second operand. */
  type Eval = (Opcode, real, real) -> Option<real>

  datatype Status = Running | Finished | Panicked

  datatype State = State(pc: nat, mem: seq<real>)

  datatype Outcome = Outcome(status: Status, state: State)

  /** `mem(idx)`: `None` where the index is out of bounds (a panic). */
  function Read(mem: seq<real>, idx: U8): (r: Option<real>)
    ensures r.Some? <==> idx < |mem|
    ensures r.Some? ==> r.value == mem[idx]
  {
    if idx < |mem| then Some(mem[idx]) else None
  }

  /** A write that only happens to a register, never to a constant. */
  function Write(mem: seq<real>, numReg: nat, ri: U8, v: real): (r: seq<real>)
    requires numReg <= |mem|
    ensures |r| == |mem|
    ensures r[numReg..] == mem[numReg..]
    ensures forall j :: 0 <= j < |mem| && j != ri as int ==> r[j] == mem[j]
    ensures ri < numReg ==> r[ri] == v
  {
    if ri as int >= numReg then mem else mem[ri := v]
  }

  predicate Binary(c: Opcode) { c in {Add, Sub, Mul, Div, Pow} }

  predicate Unary(c: Opcode) { c in {Ln, Sin, Cos} }

  /** `abs`, `neg` and `copy` look at their source only when the
    * destination is a register: with a constant destination they do
    * nothing at all. */
  predicate ReadSkipped(op: Op, numReg: nat) {
    op.code in {Abs, Neg, Copy} && op.operands.Reg2Assign? && op.operands.ri as int >= numReg
  }

  /** Every register the instruction actually reads lies inside a memory
    * of `size` locations. */
  predicate ReadsInBounds(op: Op, size: nat, numReg: nat) {
    ReadSkipped(op, numReg) || forall r :: r in InputRegs(op.operands) ==> r as int < size
  }

  /** One instruction, after `fetch` has already moved `pc` past it.
    * `None` is a panic: an operand out of bounds, or an opcode paired with
    * the wrong operand shape. */
  function Exec(op: Op, pc: nat, mem: seq<real>, numReg: nat, eval: Eval): (r: Option<State>)
    requires numReg <= |mem|
    ensures r.None? <==> !WellShaped(op) || !ReadsInBounds(op, |mem|, numReg)
    ensures ReadSkipped(op, numReg) ==> r == Some(State(pc, mem))
    ensures r.Some? ==> |r.value.mem| == |mem| && r.value.mem[numReg..] == mem[numReg..]
    ensures r.Some? ==> forall j :: 0 <= j < |mem| && j !in OutputRegs(op.operands) ==> r.value.mem[j] == mem[j]
    ensures r.Some? ==> r.value.pc == pc || (op.code == IfLt && r.value.pc == pc + 1)
  {
    match op.operands
    case Reg3Assign(ri, ra, rb) =>
      if !Binary(op.code) then None
      else if Read(mem, ra).None? then assert ra in InputRegs(op.operands); None
      else if Read(mem, rb).None? then assert rb in InputRegs(op.operands); None
      else
        var v := eval(op.code, mem[ra], mem[rb]);
        Some(State(pc, if v.Some? then Write(mem, numReg, ri, v.value) else mem))
    case Reg2Assign(ri, ra) =>
      if op.code in {Abs, Neg, Copy} && ri as int >= numReg then Some(State(pc, mem))
      else if Read(mem, ra).None? then assert ra in InputRegs(op.operands); None
      else if op.code == Abs then Some(State(pc, Write(mem, numReg, ri, if mem[ra] < 0.0 then -mem[ra] else mem[ra])))
      else if op.code == Neg then Some(State(pc, Write(mem, numReg, ri, -mem[ra])))
      else if op.code == Copy then Some(State(pc, Write(mem, numReg, ri, mem[ra])))
      else if Unary(op.code) then
        var v := eval(op.code, mem[ra], 0.0);
        Some(State(pc, if v.Some? then Write(mem, numReg, ri, v.value) else mem))
      else None
    case ImmAssign(ri, imm) =>
      if op.code != Load then None else Some(State(pc, Write(mem, numReg, ri, imm)))
    case Reg2Cmp(ra, rb) =>
      if op.code != IfLt then None
      else if Read(mem, ra).None? then assert ra in InputRegs(op.operands); None
      else if Read(mem, rb).None? then assert rb in InputRegs(op.operands); None
      else Some(State(if mem[ra] >= mem[rb] then pc + 1 else pc, mem))
  }

  /** `step`: fetch the instruction at `pc` (moving `pc` on whether or not
    * there is one) and execute it. */
  function StepSpec(code: seq<Op>, numReg: nat, eval: Eval, s: State): (o: Outcome)
    requires numReg <= |s.mem|
    ensures o.status == Finished <==> s.pc >= |code|
    ensures |o.state.mem| == |s.mem| && o.state.mem[numReg..] == s.mem[numReg..]
    ensures o.status == Running ==> s.pc + 1 <= o.state.pc <= s.pc + 2 && o.state.pc <= |code| + 1
  {
    if s.pc >= |code| then Outcome(Finished, State(s.pc + 1, s.mem))
    else
      match Exec(code[s.pc], s.pc + 1, s.mem, numReg, eval)
      case None => Outcome(Panicked, State(s.pc + 1, s.mem))
      case Some(t) => Outcome(Running, t)
  }

  function Fuel(code: seq<Op>, pc: nat): nat {
    if pc <= |code| + 1 then |code| + 2 - pc else 0
  }

  /** `run`: step until the program ends or panics. */
  function RunSpec(code: seq<Op>, numReg: nat, eval: Eval, s: State): (o: Outcome)
    requires numReg <= |s.mem|
    ensures o.status != Running
    ensures o.status == Finished ==> o.state.pc > |code|
    decreases Fuel(code, s.pc)
  {
    var o := StepSpec(code, numReg, eval, s);
    if o.status == Running then RunSpec(code, numReg, eval, o.state) else o
  }

  /** A run never changes a constant, nor the size of memory. */
  lemma {:induction false} RunKeepsConstants(code: seq<Op>, numReg: nat, eval: Eval, s: State)
    requires numReg <= |s.mem|
    ensures |RunSpec(code, numReg, eval, s).state.mem| == |s.mem|
    ensures RunSpec(code, numReg, eval, s).state.mem[numReg..] == s.mem[numReg..]
    decreases Fuel(code, s.pc)
  {
    var o := StepSpec(code, numReg, eval, s);
    if o.status == Running {
      RunKeepsConstants(code, numReg, eval, o.state);
    }
  }

  /** Every instruction of the code reads only inside memory. */
  predicate InBounds(code: seq<Op>, size: nat, numReg: nat) {
    forall i :: 0 <= i < |code| ==> ReadsInBounds(code[i], size, numReg)
  }

  lemma {:induction false} RunNeverPanics(code: seq<Op>, numReg: nat, eval: Eval, s: State)
    requires numReg <= |s.mem|
    requires forall i :: 0 <= i < |code| ==> WellShaped(code[i])
    requires InBounds(code, |s.mem|, numReg)
    ensures RunSpec(code, numReg, eval, s).status == Finished
    decreases Fuel(code, s.pc)
  {
    var o := StepSpec(code, numReg, eval, s);
    if s.pc < |code| {
      assert ReadsInBounds(code[s.pc], |s.mem|, numReg);
      assert o.status == Running;
      RunNeverPanics(code, numReg, eval, o.state);
    }
  }

  /** A copy into the constant from a location past the end of memory is
    * never read, so the run finishes with memory untouched. */
  lemma {:induction false} ConstantCopyRun(eval: Eval, c: real)
    ensures RunSpec([Op(Copy, Reg2Assign(2, 5))], 2, eval, State(0, [0.0, 0.0, c])) ==
      Outcome(Finished, State(2, [0.0, 0.0, c]))
  {
    var code := [Op(Copy, Reg2Assign(2, 5))];
    var m := [0.0, 0.0, c];
    assert StepSpec(code, 2, eval, State(0, m)) == Outcome(Running, State(1, m));
    assert StepSpec(code, 2, eval, State(1, m)) == Outcome(Finished, State(2, m));
  }

  /** The comparison skips the next instruction exactly when its first
    * operand is not less than its second. */
  lemma IfLtSkips(ra: U8, rb: U8, pc: nat, mem: seq<real>, numReg: nat, eval: Eval)
    requires numReg <= |mem| && ra < |mem| && rb < |mem|
    ensures Exec(Op(IfLt, Reg2Cmp(ra, rb)), pc, mem, numReg, eval) ==
      Some(State(if mem[ra] < mem[rb] then pc else pc + 1, mem))
  {
  }

  /** A program that copies the constant into r0, skips the negation
    * because r0 is not less than the constant, takes the absolute value
    * into r1 and tries to overwrite the constant, which has no effect. */
  const SkipExample := [
    Op(Copy, Reg2Assign(0, 2)),
    Op(IfLt, Reg2Cmp(0, 2)),
    Op(Neg, Reg2Assign(0, 0)),
    Op(Abs, Reg2Assign(1, 0)),
    Op(Copy, Reg2Assign(2, 1))
  ]

  lemma {:induction false} SkipExampleRun(code: seq<Op>, eval: Eval)
    requires code == SkipExample
    ensures RunSpec(code, 2, eval, State(0, [0.0, 0.0, 3.0])) == Outcome(Finished, State(6, [3.0, 3.0, 3.0]))
  {
    var m0 := [0.0, 0.0, 3.0];
    var m1 := [3.0, 0.0, 3.0];
    var m2 := [3.0, 3.0, 3.0];
    assert StepSpec(code, 2, eval, State(0, m0)) == Outcome(Running, State(1, m1));
    assert StepSpec(code, 2, eval, State(1, m1)) == Outcome(Running, State(3, m1));
    assert StepSpec(code, 2, eval, State(3, m1)) == Outcome(Running, State(4, m2));
    assert StepSpec(code, 2, eval, State(4, m2)) == Outcome(Running, State(5, m2));
    assert StepSpec(code, 2, eval, State(5, m2)) == Outcome(Finished, State(6, m2));
  }

  /** Memory at start: zeroed registers, then the constants. */
  function InitialMem(numReg: nat, constants: seq<real>): (m: seq<real>)
    ensures |m| == numReg + |constants| && m[numReg..] == constants
    ensures forall j :: 0 <= j < numReg ==> m[j] == 0.0
  {
    seq(numReg, _ => 0.0) + constants
  }

  class LgpVm {
    var pc: nat
    const mem: array<real>
    const code: seq<Op>
    /** Number of writable locations; the rest of `mem` is constants. */
    const numReg: nat

    ghost predicate Valid()
      reads this
    {
      numReg <= mem.Length
    }

    /** `LgpVm::new`. */
    constructor (cfg: VmCfg.Cfg)
      ensures Valid() && fresh(mem)
      ensures pc == 0 && code == cfg.code && numReg == cfg.numReg
      ensures mem[..] == InitialMem(cfg.numReg, cfg.constants)
    {
      var m := new real[cfg.numReg + |cfg.constants|];
      var i := 0;
      while i < m.Length
        modifies m
        invariant 0 <= i <= m.Length
        invariant forall j :: 0 <= j < i ==> m[j] == InitialMem(cfg.numReg, cfg.constants)[j]
      {
        m[i] := if i < cfg.numReg then 0.0 else cfg.constants[i - cfg.numReg];
        i := i + 1;
      }
      pc, mem, code, numReg := 0, m, cfg.code, cfg.numReg;
    }

    /** `is_constant`. */
    predicate IsConstant(idx: U8)
      reads this
    {
      idx as int >= numReg
    }

    /** `mem`: the value at an index, `None` where the index is out of
      * bounds. */
    function Mem(idx: U8): (r: Option<real>)
      reads this, mem
      ensures r == Read(mem[..], idx)
    {
      if idx as int < mem.Length then Some(mem[idx]) else None
    }

    /** `fetch`. */
    method Fetch() returns (op: Option<Op>)
      modifies this
      ensures pc == old(pc) + 1
      ensures op == if old(pc) < |code| then Some(code[old(pc)]) else None
    {
      op := if pc >= |code| then None else Some(code[pc]);
      pc := pc + 1;
    }

    method Set(ri: U8, v: real)
      requires Valid()
      modifies mem
      ensures mem[..] == Write(old(mem[..]), numReg, ri, v)
    {
      if ri as int < numReg {
        mem[ri] := v;
      }
    }

    /** The arm of `step` for `abs`, `neg`, `copy` and the unary
      * functions: one source register, one destination. */
    method Assign2(op: Op, ri: U8, ra: U8, eval: Eval) returns (ok: bool)
      requires Valid() && op.operands == Reg2Assign(ri, ra)
      modifies mem
      ensures ok <==> Exec(op, pc, old(mem[..]), numReg, eval).Some?
      ensures ok ==> Exec(op, pc, old(mem[..]), numReg, eval) == Some(State(pc, mem[..]))
      ensures !ok ==> mem[..] == old(mem[..])
    {
      if (op.code == Abs || op.code == Neg || op.code == Copy) && IsConstant(ri) {
        return true;
      }
      var a := Mem(ra);
      if a.None? {
        return false;
      }
      ok := true;
      if op.code == Abs {
        Set(ri, if a.value < 0.0 then -a.value else a.value);
      } else if op.code == Neg {
        Set(ri, -a.value);
      } else if op.code == Copy {
        Set(ri, a.value);
      } else if Unary(op.code) {
        var v := eval(op.code, a.value, 0.0);
        if v.Some? {
          Set(ri, v.value);
        }
      } else {
        ok := false;
      }
    }

    /** `step`. */
    method Step(eval: Eval) returns (status: Status)
      requires Valid()
      modifies this, mem
      ensures Valid()
      ensures Outcome(status, State(pc, mem[..])) == StepSpec(code, numReg, eval, State(old(pc), old(mem[..])))
    {
      ghost var m0 := mem[..];
      var next := Fetch();
      if next.None? {
        return Finished;
      }
      var op := next.value;
      assert Exec(op, pc, m0, numReg, eval) == Exec(code[pc - 1], pc, m0, numReg, eval);
      match op.operands {
      case Reg3Assign(ri, ra, rb) => {
        var a := Mem(ra);
        var b := Mem(rb);
        if !Binary(op.code) || a.None? || b.None? {
          return Panicked;
        }
        var v := eval(op.code, a.value, b.value);
        if v.Some? {
          Set(ri, v.value);
        }
      }
      case Reg2Assign(ri, ra) => {
        var ok := Assign2(op, ri, ra, eval);
        if !ok {
          return Panicked;
        }
      }
      case ImmAssign(ri, imm) => {
        if op.code != Load {
          return Panicked;
        }
        Set(ri, imm);
      }
      case Reg2Cmp(ra, rb) => {
        var a := Mem(ra);
        var b := Mem(rb);
        if op.code != IfLt || a.None? || b.None? {
          return Panicked;
        }
        if a.value >= b.value {
          pc := pc + 1;
        }
      }
      }
      status := Running;
    }

    /** `run`: steps until the program ends. The result is the one the
      * specification gives, and it takes at most one step per instruction
      * plus the step that finds the end. A panic stops the run. */
    method Run(eval: Eval) returns (status: Status, steps: nat)
      requires Valid()
      modifies this, mem
      ensures Valid()
      ensures Outcome(status, State(pc, mem[..])) == RunSpec(code, numReg, eval, State(old(pc), old(mem[..])))
      ensures steps <= |code| + 1
    {
      ghost var start := State(pc, mem[..]);
      ghost var pc0 := pc;
      status, steps := Running, 0;
      while status == Running
        invariant Valid()
        invariant status == Running ==> RunSpec(code, numReg, eval, State(pc, mem[..])) == RunSpec(code, numReg, eval, start)
        invariant status != Running ==> Outcome(status, State(pc, mem[..])) == RunSpec(code, numReg, eval, start)
        invariant status == Running ==> steps <= |code| && pc0 + steps <= pc
        invariant steps <= |code| + 1
        decreases if status == Running then Fuel(code, pc) + 1 else 0
      {
        ghost var before := State(pc, mem[..]);
        status := Step(eval);
        steps := steps + 1;
        if status != Running {
          assert RunSpec(code, numReg, eval, before) == Outcome(status, State(pc, mem[..]));
        }
      }
    }
  }
}

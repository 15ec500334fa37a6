// The relative-jumping register machine of src/lgp/exec.rs. Register indices
// wrap around the size of the register file, relative jumps are clamped to
// the code, and a run takes at most `max_iter` steps.
module LgpExec {
  import opened Common
  import opened LgpOp
  import VmExec
  import VmOp

  /** The `f64` arithmetic of an opcode on two operands, `None` when the
    * result is not finite (`Log` receives 0.0 as second operand). */
  type Eval = (Opcode, real, real) -> Option<real>

  datatype Status = Running | Finished | Panicked

  datatype State = State(pc: nat, reg: seq<real>)

  datatype Outcome = Outcome(status: Status, state: State)

  /** `rel_jmp`: `pc + imm`, clamped to [0, len]. */
  function RelJump(pc: nat, imm: I8, len: nat): (r: nat)
    ensures r <= len
    ensures 0 <= pc + imm <= len ==> r == pc + imm
    ensures pc + imm < 0 ==> r == 0
    ensures pc + imm > len ==> r == len
  {
    if pc + imm < 0 then 0 else if pc + imm > len then len else pc + imm
  }

  predicate Arith(c: Opcode) { c in {Add, Sub, Mul, Div, Pow, Log} }

  predicate Jump(c: Opcode) { c in {Jlt, Jle, Jeq} }

  /** The conditional jumps' tolerant comparisons. */
  function Taken(c: Opcode, x: real, y: real): bool
    requires Jump(c)
  {
    match c
    case Jlt => x < y - VmExec.EP
    case Jle => x <= y + VmExec.EP
    case Jeq => (if x - y < 0.0 then y - x else x - y) < VmExec.EP
  }

  /** One instruction, after `fetch` has moved `pc` past it to `pc`. `None`
    * is the panic of `idx % 0`: every opcode but `Nop` reads a register. */
  function Exec(op: Op, pc: nat, reg: seq<real>, len: nat, eval: Eval): (r: Option<State>)
    requires |reg| <= 256
    ensures r.None? <==> reg == [] && op.code != Nop
    ensures r.Some? ==> VmExec.AtMostOneChanged(reg, r.value.reg)
    ensures r.Some? && !Jump(op.code) ==> r.value.pc == pc
    ensures r.Some? && Jump(op.code) ==> r.value.pc == pc || r.value.pc == RelJump(pc, AsI8(op.data[2]), len)
    ensures r.Some? && op.code == Load ==>
      r.value.reg == reg[VmExec.RegIndex(op.data[0], |reg|) := VmOp.FixedPoint(op.data[1], op.data[2])]
    ensures op.code == Nop ==> r == Some(State(pc, reg))
  {
    if op.code == Nop then Some(State(pc, reg))
    else if reg == [] then None
    else
      var n := |reg|;
      var rx := VmExec.RegIndex(op.data[0], n);
      var x, y := reg[rx], reg[VmExec.RegIndex(op.data[1], n)];
      if Jump(op.code) then
        Some(State(if Taken(op.code, x, y) then RelJump(pc, AsI8(op.data[2]), len) else pc, reg))
      else if Arith(op.code) then
        var v := eval(op.code, x, if op.code == Log then 0.0 else y);
        Some(State(pc, if v.Some? then reg[rx := v.value] else reg))
      else if op.code == Abs then Some(State(pc, reg[rx := if x < 0.0 then -x else x]))
      else if op.code == Neg then Some(State(pc, reg[rx := -x]))
      else if op.code == Load then Some(State(pc, reg[rx := VmOp.FixedPoint(op.data[1], op.data[2])]))
      else Some(State(pc, reg[VmExec.F64ToReg(x, n) := y]))
  }

  /** `step`: fetch (moving `pc` on in any case), then execute. While the
    * machine runs, `pc` stays within the code length. */
  function StepSpec(code: seq<Op>, eval: Eval, s: State): (o: Outcome)
    requires |s.reg| <= 256
    ensures o.status == Finished <==> s.pc >= |code|
    ensures o.status == Running ==> o.state.pc <= |code|
    ensures |o.state.reg| == |s.reg|
  {
    if s.pc >= |code| then Outcome(Finished, State(s.pc + 1, s.reg))
    else
      match Exec(code[s.pc], s.pc + 1, s.reg, |code|, eval)
      case None => Outcome(Panicked, State(s.pc + 1, s.reg))
      case Some(t) => Outcome(Running, t)
  }

  /** `run`: at most `n` steps, stopping after the step that finds the end
    * of the code (or panics). */
  function RunSpec(code: seq<Op>, eval: Eval, s: State, n: nat): (o: Outcome)
    requires |s.reg| <= 256
    ensures |o.state.reg| == |s.reg|
    decreases n
  {
    if n == 0 then Outcome(Running, s)
    else
      var o := StepSpec(code, eval, s);
      if o.status != Running then o else RunSpec(code, eval, o.state, n - 1)
  }

  /** A run that starts within the code and is still running is still within
    * it; a run that ended by finishing went exactly one past the end. */
  lemma {:induction false} RunPcBounded(code: seq<Op>, eval: Eval, s: State, n: nat)
    requires |s.reg| <= 256 && s.pc <= |code|
    ensures RunSpec(code, eval, s, n).status == Running ==> RunSpec(code, eval, s, n).state.pc <= |code|
    ensures RunSpec(code, eval, s, n).status == Finished ==> RunSpec(code, eval, s, n).state.pc == |code| + 1
    decreases n
  {
    if n > 0 {
      var o := StepSpec(code, eval, s);
      if o.status == Running {
        RunPcBounded(code, eval, o.state, n - 1);
      }
    }
  }

  /** On a non-empty register file nothing panics. */
  lemma {:induction false} RunNeverPanics(code: seq<Op>, eval: Eval, s: State, n: nat)
    requires 0 < |s.reg| <= 256
    ensures RunSpec(code, eval, s, n).status != Panicked
    decreases n
  {
    if n > 0 {
      var o := StepSpec(code, eval, s);
      if o.status == Running {
        RunNeverPanics(code, eval, o.state, n - 1);
      }
    }
  }

  class LgpExec {
    var pc: nat
    const reg: array<real>
    const code: seq<Op>
    const maxIter: nat

    /** `LgpExec::new`, whose assertion limits the register file to 256
      * entries. */
    constructor (regs: seq<real>, code: seq<Op>, maxIter: nat)
      requires |regs| <= 256
      ensures pc == 0 && reg[..] == regs && this.code == code && this.maxIter == maxIter
      ensures fresh(reg)
    {
      var r := new real[|regs|](i requires 0 <= i < |regs| => regs[i]);
      pc, reg, this.code, this.maxIter := 0, r, code, maxIter;
    }

    /** `LgpExec::new` with its assertion as an outcome: `None` is the panic
      * on more than 256 registers. */
    static method New(regs: seq<real>, code: seq<Op>, maxIter: nat) returns (e: Option<LgpExec>)
      ensures e.None? <==> |regs| > 256
      ensures e.Some? ==> fresh(e.value) && fresh(e.value.reg) && e.value.pc == 0 && e.value.reg[..] == regs
      ensures e.Some? ==> e.value.code == code && e.value.maxIter == maxIter
    {
      if |regs| > 256 {
        return None;
      }
      var x := new LgpExec(regs, code, maxIter);
      return Some(x);
    }

    /** `reg`: `None` is the panic on an empty register file. */
    function Reg(idx: U8): (r: Option<real>)
      reads this, reg
      ensures r.Some? <==> reg.Length > 0
      ensures r.Some? ==> r.value == reg[VmExec.RegIndex(idx, reg.Length)]
    {
      if reg.Length == 0 then None else Some(reg[idx as int % reg.Length])
    }

    /** `set_reg`. */
    method SetReg(idx: U8, v: real)
      requires reg.Length > 0
      modifies reg
      ensures reg[..] == old(reg[..])[VmExec.RegIndex(idx, reg.Length) := v]
    {
      reg[idx as int % reg.Length] := v;
    }

    /** `fetch`. */
    method Fetch() returns (op: Option<Op>)
      modifies this
      ensures pc == old(pc) + 1
      ensures op == if old(pc) < |code| then Some(code[old(pc)]) else None
    {
      op := if pc >= |code| then None else Some(code[pc]);
      pc := pc + 1;
    }

    /** `rel_jmp`. */
    method RelJmp(imm: I8)
      modifies this
      ensures pc == RelJump(old(pc), imm, |code|)
    {
      var target := pc + imm;
      if target < 0 {
        target := 0;
      } else if target > |code| {
        target := |code|;
      }
      pc := target;
    }

    /** `step`. */
    method Step(eval: Eval) returns (status: Status)
      requires reg.Length <= 256
      modifies this, reg
      ensures Outcome(status, State(pc, reg[..])) == StepSpec(code, eval, State(old(pc), old(reg[..])))
    {
      var next := Fetch();
      if next.None? {
        return Finished;
      }
      var op := next.value;
      assert op == code[pc - 1];
      if op.code == Nop {
        return Running;
      }
      var x := Reg(op.data[0]);
      var y := Reg(op.data[1]);
      if x.None? {
        return Panicked;
      }
      if Jump(op.code) {
        if Taken(op.code, x.value, y.value) {
          RelJmp(AsI8(op.data[2]));
        }
      } else if Arith(op.code) {
        var v := eval(op.code, x.value, if op.code == Log then 0.0 else y.value);
        if v.Some? {
          SetReg(op.data[0], v.value);
        }
      } else if op.code == Abs {
        SetReg(op.data[0], if x.value < 0.0 then -x.value else x.value);
      } else if op.code == Neg {
        SetReg(op.data[0], -x.value);
      } else if op.code == Load {
        SetReg(op.data[0], VmOp.FixedPoint(op.data[1], op.data[2]));
      } else {
        SetReg(VmExec.F64ToReg(x.value, reg.Length), y.value);
      }
      status := Running;
    }

    /** `run`: at most `max_iter` steps; it stops early only when a step
      * finds the end of the code (or panics). */
    method Run(eval: Eval) returns (status: Status, steps: nat)
      requires reg.Length <= 256
      modifies this, reg
      ensures Outcome(status, State(pc, reg[..])) == RunSpec(code, eval, State(old(pc), old(reg[..])), maxIter)
      ensures steps <= maxIter
      ensures status == Running ==> steps == maxIter
    {
      ghost var start := State(pc, reg[..]);
      status, steps := Running, 0;
      while steps < maxIter
        invariant steps <= maxIter
        invariant status == Running
        invariant RunSpec(code, eval, State(pc, reg[..]), maxIter - steps) == RunSpec(code, eval, start, maxIter)
      {
        status := Step(eval);
        steps := steps + 1;
        if status != Running {
          return;
        }
      }
    }
  }
}

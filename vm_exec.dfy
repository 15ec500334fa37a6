// The label-jumping register machine of src/evaluators/lgp/vm/exec.rs.
// Register indices wrap around the size of the register file, jumps go to
// the instruction after the first matching label, and a run takes at most
// `max_iter` steps.
module VmExec {
  import opened Common

  /** The opcodes that `step` dispatches on. */
  datatype Opcode = Add | Sub | Mul | Div | Abs | Neg | Pow | Log | Load | IndirectCopy | Jlt | Jle | Jeq | Jmp | Label

  /** An opcode and its three data bytes. */
  datatype Op = Op(code: Opcode, d0: U8, d1: U8, d2: U8)

  /** The comparison tolerance. */
  const EP: real := 0.000001

  /** What the machine takes from code outside this model: the `f64`
    * arithmetic of an opcode on two operands (`None` when the result is
    * not finite; unary opcodes receive 0.0 as second operand), and the
    * accessors `Op::label` and `Op::imm_value`. */
  type Eval = (Opcode, real, real) -> Option<real>

  datatype Env = Env(eval: Eval, labelOf: Op -> U8, immValue: Op -> real)

  datatype Status = Running | Finished | Panicked

  datatype State = State(pc: nat, reg: seq<real>)

  datatype Outcome = Outcome(status: Status, state: State)

  /** `reg`/`set_reg`: index `idx` addresses register `idx % len`. */
  function RegIndex(idx: U8, len: nat): (i: nat)
    requires len > 0
    ensures i < len
    ensures idx as int < len ==> i == idx as int
  {
    idx as int % len
  }

  /** Rounding toward zero. */
  function Trunc(x: real): int {
    if x >= 0.0 then x.Floor else -((-x).Floor)
  }

  /** `f64_to_reg`: `(v % len + len) as usize % len`, where `%` on `f64`
    * keeps the sign of `v`. */
  function F64ToReg(v: real, len: nat): (r: U8)
    requires 0 < len <= 256
    ensures r < len
  {
    ((F64Rem(v, len) + len as real).Floor % len) as U8
  }

  /** `v % len` on `f64`: the remainder of the division rounded toward
    * zero, with the sign of `v`. */
  function F64Rem(v: real, len: nat): real
    requires 0 < len
  {
    v - (len as real) * (Trunc(v / len as real) as real)
  }

  /** A whole-number value names the register it is congruent to modulo
    * the register count, for negative values too. */
  lemma F64ToRegOfInt(k: int, len: nat)
    requires 0 < len <= 256
    ensures F64ToReg(k as real, len) as int == k % len
  {
    var L := len as real;
    var t := Trunc(k as real / L);
    var m := F64Rem(k as real, len);
    assert m == (k - len * t) as real;
    var n := k - len * t + len;
    assert m + L == n as real;
    assert (m + L).Floor == n;
    assert n % len == k % len by {
      assert n == k + len * (1 - t);
      ModAddMultiple(k, 1 - t, len);
    }
  }

  lemma ModAddMultiple(k: int, q: int, len: nat)
    requires len > 0
    ensures (k + len * q) % len == k % len
  {
    var r := k % len;
    assert k == len * (k / len) + r;
    ModUnique(k + len * q, len, k / len + q, r);
  }

  /** Euclidean division has one quotient and remainder. */
  lemma ModUnique(a: int, d: nat, q: int, r: int)
    requires d > 0 && a == d * q + r && 0 <= r < d
    ensures a % d == r
  {
    var x := q - a / d;
    assert d * x == a % d - r;
    MulBound(d, x);
  }

  lemma MulBound(d: int, x: int)
    requires d >= 0
    ensures x >= 1 ==> d * x >= d
    ensures x <= -1 ==> d * x <= -d
  {
    if x >= 1 {
      assert d * x == d + d * (x - 1);
    } else if x <= -1 {
      assert d * x == -d + d * (x + 1);
    }
  }

  /** The index of the first label with id `id`, if any. */
  function FirstLabel(code: seq<Op>, labelOf: Op -> U8, id: U8): (r: Option<nat>)
    ensures r.Some? ==> r.value < |code| && code[r.value].code == Label && labelOf(code[r.value]) == id
    ensures r.Some? ==> forall i :: 0 <= i < r.value ==> !(code[i].code == Label && labelOf(code[i]) == id)
    ensures r.None? ==> forall i :: 0 <= i < |code| ==> !(code[i].code == Label && labelOf(code[i]) == id)
  {
    if code == [] then None
    else if code[0].code == Label && labelOf(code[0]) == id then Some(0)
    else
      var rest := FirstLabel(code[1..], labelOf, id);
      if rest.None? then None else Some(rest.value + 1)
  }

  /** `label_jmp`: `pc` moves to just after the first matching label, and
    * stays where it is when there is none. */
  function LabelJump(code: seq<Op>, labelOf: Op -> U8, id: U8, pc: nat): nat {
    match FirstLabel(code, labelOf, id)
    case Some(i) => i + 1
    case None => pc
  }

  predicate Arith(c: Opcode) { c in {Add, Sub, Mul, Div, Pow, Log} }

  predicate Jump(c: Opcode) { c in {Jlt, Jle, Jeq, Jmp} }

  /** The conditional jumps' tolerant comparisons; `Jmp` always jumps. */
  function Taken(c: Opcode, x: real, y: real): bool
    requires Jump(c)
  {
    match c
    case Jlt => x < y - EP
    case Jle => x <= y + EP
    case Jeq => (if x - y < 0.0 then y - x else x - y) < EP
    case Jmp => true
  }

  /** At most one position differs between two register files. */
  predicate AtMostOneChanged(a: seq<real>, b: seq<real>) {
    |a| == |b| && forall i, j :: 0 <= i < j < |a| ==> a[i] == b[i] || a[j] == b[j]
  }

  /** One instruction, after `fetch` has moved `pc` past it. `None` is the
    * panic of `idx % 0` on an empty register file. */
  function Exec(op: Op, pc: nat, reg: seq<real>, code: seq<Op>, env: Env): (r: Option<State>)
    requires |reg| <= 256
    ensures r.None? <==> reg == [] && op.code !in {Jmp, Label}
    ensures r.Some? ==> AtMostOneChanged(reg, r.value.reg)
    ensures r.Some? && !Jump(op.code) ==> r.value.pc == pc
    ensures r.Some? && Jump(op.code) ==> r.value.pc == pc || r.value.pc == LabelJump(code, env.labelOf, env.labelOf(op), pc)
  {
    if op.code == Label then Some(State(pc, reg))
    else if op.code == Jmp then Some(State(LabelJump(code, env.labelOf, env.labelOf(op), pc), reg))
    else if reg == [] then None
    else
      var n := |reg|;
      var x, y := reg[RegIndex(op.d0, n)], reg[RegIndex(op.d1, n)];
      if Jump(op.code) then
        Some(State(if Taken(op.code, x, y) then LabelJump(code, env.labelOf, env.labelOf(op), pc) else pc, reg))
      else if Arith(op.code) then
        var v := env.eval(op.code, x, if op.code == Log then 0.0 else y);
        Some(State(pc, if v.Some? then reg[RegIndex(op.d0, n) := v.value] else reg))
      else if op.code == Abs then Some(State(pc, reg[RegIndex(op.d0, n) := if x < 0.0 then -x else x]))
      else if op.code == Neg then Some(State(pc, reg[RegIndex(op.d0, n) := -x]))
      else if op.code == Load then Some(State(pc, reg[RegIndex(op.d0, n) := env.immValue(op)]))
      else Some(State(pc, reg[F64ToReg(x, n) := y]))
  }

  /** `step`: fetch (moving `pc` on in any case), then execute. */
  function StepSpec(code: seq<Op>, env: Env, s: State): (o: Outcome)
    requires |s.reg| <= 256
    ensures o.status == Finished <==> s.pc >= |code|
    ensures AtMostOneChanged(s.reg, o.state.reg)
  {
    if s.pc >= |code| then Outcome(Finished, State(s.pc + 1, s.reg))
    else
      match Exec(code[s.pc], s.pc + 1, s.reg, code, env)
      case None => Outcome(Panicked, State(s.pc + 1, s.reg))
      case Some(t) => Outcome(Running, t)
  }

  /** `run`: at most `n` steps, stopping after the step that finds the end
    * of the code (or panics). */
  function RunSpec(code: seq<Op>, env: Env, s: State, n: nat): (o: Outcome)
    requires |s.reg| <= 256
    ensures |o.state.reg| == |s.reg|
    decreases n
  {
    if n == 0 then Outcome(Running, s)
    else
      var o := StepSpec(code, env, s);
      if o.status != Running then o else RunSpec(code, env, o.state, n - 1)
  }

  /** An arithmetic result that is not finite leaves the registers as they
    * were; only the destination register can change otherwise. */
  lemma ArithWritesOnlyFinite(op: Op, pc: nat, reg: seq<real>, code: seq<Op>, env: Env)
    requires 0 < |reg| <= 256 && Arith(op.code)
    requires env.eval(op.code, reg[RegIndex(op.d0, |reg|)], if op.code == Log then 0.0 else reg[RegIndex(op.d1, |reg|)]).None?
    ensures Exec(op, pc, reg, code, env) == Some(State(pc, reg))
  {
  }

  /** Without a label to go to, a jump leaves `pc` just after itself. */
  lemma {:induction false} MissingLabelFallsThrough(code: seq<Op>, env: Env, s: State)
    requires |s.reg| <= 256 && s.pc < |code| && Jump(code[s.pc].code)
    requires FirstLabel(code, env.labelOf, env.labelOf(code[s.pc])).None?
    requires s.reg != [] || code[s.pc].code == Jmp
    ensures StepSpec(code, env, s).state.pc == s.pc + 1
  {
  }

  class LgpExec {
    var pc: nat
    const reg: array<real>
    const code: seq<Op>
    const maxIter: nat

    /** `LgpExec::new`, whose assertion limits the register file to 256
      * entries. */
    constructor (regs: seq<real>, code: seq<Op>, maxIter: nat)
      requires |regs| <= 256
      ensures pc == 0 && reg[..] == regs && this.code == code && this.maxIter == maxIter
      ensures fresh(reg)
    {
      var r := new real[|regs|](i requires 0 <= i < |regs| => regs[i]);
      pc, reg, this.code, this.maxIter := 0, r, code, maxIter;
    }

    /** `LgpExec::new` with its assertion as an outcome: `None` is the panic
      * on more than 256 registers. */
    static method New(regs: seq<real>, code: seq<Op>, maxIter: nat) returns (e: Option<LgpExec>)
      ensures e.None? <==> |regs| > 256
      ensures e.Some? ==> fresh(e.value) && fresh(e.value.reg) && e.value.pc == 0 && e.value.reg[..] == regs
      ensures e.Some? ==> e.value.code == code && e.value.maxIter == maxIter
    {
      if |regs| > 256 {
        return None;
      }
      var x := new LgpExec(regs, code, maxIter);
      return Some(x);
    }

    /** `reg`: `None` is the panic on an empty register file. */
    function Reg(idx: U8): (r: Option<real>)
      reads this, reg
      ensures r.Some? <==> reg.Length > 0
      ensures r.Some? ==> r.value == reg[RegIndex(idx, reg.Length)]
    {
      if reg.Length == 0 then None else Some(reg[idx as int % reg.Length])
    }

    /** `set_reg`. */
    method SetReg(idx: U8, v: real)
      requires reg.Length > 0
      modifies reg
      ensures reg[..] == old(reg[..])[RegIndex(idx, reg.Length) := v]
    {
      reg[idx as int % reg.Length] := v;
    }

    /** `fetch`. */
    method Fetch() returns (op: Option<Op>)
      modifies this
      ensures pc == old(pc) + 1
      ensures op == if old(pc) < |code| then Some(code[old(pc)]) else None
    {
      op := if pc >= |code| then None else Some(code[pc]);
      pc := pc + 1;
    }

    /** `label_jmp`: a scan for the first matching label. */
    method LabelJmp(id: U8, labelOf: Op -> U8)
      modifies this
      ensures pc == LabelJump(code, labelOf, id, old(pc))
    {
      var i := 0;
      while i < |code|
        invariant 0 <= i <= |code| && pc == old(pc)
        invariant forall k :: 0 <= k < i ==> !(code[k].code == Label && labelOf(code[k]) == id)
      {
        if code[i].code == Label && labelOf(code[i]) == id {
          pc := i + 1;
          return;
        }
        i := i + 1;
      }
    }

    /** `step`. */
    method Step(env: Env) returns (status: Status)
      requires reg.Length <= 256
      modifies this, reg
      ensures Outcome(status, State(pc, reg[..])) == StepSpec(code, env, State(old(pc), old(reg[..])))
    {
      var next := Fetch();
      if next.None? {
        return Finished;
      }
      var op := next.value;
      assert op == code[pc - 1];
      if op.code == Label {
        return Running;
      }
      if op.code == Jmp {
        LabelJmp(env.labelOf(op), env.labelOf);
        return Running;
      }
      var x := Reg(op.d0);
      var y := Reg(op.d1);
      if x.None? {
        return Panicked;
      }
      if Jump(op.code) {
        if Taken(op.code, x.value, y.value) {
          LabelJmp(env.labelOf(op), env.labelOf);
        }
      } else if Arith(op.code) {
        var v := env.eval(op.code, x.value, if op.code == Log then 0.0 else y.value);
        if v.Some? {
          SetReg(op.d0, v.value);
        }
      } else if op.code == Abs {
        SetReg(op.d0, if x.value < 0.0 then -x.value else x.value);
      } else if op.code == Neg {
        SetReg(op.d0, -x.value);
      } else if op.code == Load {
        SetReg(op.d0, env.immValue(op));
      } else {
        SetReg(F64ToReg(x.value, reg.Length), y.value);
      }
      status := Running;
    }

    /** `run`: at most `max_iter` steps; it stops early only when a step
      * finds the end of the code (or panics). */
    method Run(env: Env) returns (status: Status, steps: nat)
      requires reg.Length <= 256
      modifies this, reg
      ensures Outcome(status, State(pc, reg[..])) == RunSpec(code, env, State(old(pc), old(reg[..])), maxIter)
      ensures steps <= maxIter
      ensures status == Running ==> steps == maxIter
    {
      ghost var start := State(pc, reg[..]);
      status, steps := Running, 0;
      while steps < maxIter
        invariant steps <= maxIter
        invariant status == Running
        invariant RunSpec(code, env, State(pc, reg[..]), maxIter - steps) == RunSpec(code, env, start, maxIter)
      {
        status := Step(env);
        steps := steps + 1;
        if status != Running {
          return;
        }
      }
    }
  }
}

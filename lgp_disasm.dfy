// The byte-code disassembler of src/lgp/disasm.rs: it reads an opcode byte,
// then as many operand bytes as the opcode takes, and writes one line of
// text per instruction until the program counter reaches the end of the
// code. Its bounds test lets a fetch at exactly the end of the code index
// past it; the `Padded` reading is the one its comment describes, where a
// fetch past the end yields 0.
module LgpDisasm {
  import opened Common
  import opened Text
  import VmOp

  /** The opcode set this disassembler matches on, which has an
    * unconditional `Jmp`. */
  datatype Opcode = Nop | Add | Sub | Mul | Div | Abs | Neg | Pow | Log | Load | Copy | Jmp | Jlt | Jle | Jeq

  /** How many operand bytes `step` fetches after each opcode. */
  function Arity(c: Opcode): (n: nat)
    ensures n <= 3
  {
    match c
    case Nop => 0
    case Abs | Neg | Log | Jmp => 1
    case Add | Sub | Mul | Div | Pow | Copy => 2
    case Load | Jlt | Jle | Jeq => 3
  }

  /** The two readings of `fetch`'s bounds test. */
  datatype Fetching = AsWritten | Padded

  /** `fetch`: the byte at `pc`, or 0 past the end. As written the test is
    * `pc > len`, so a fetch at exactly `pc == len` indexes past the code
    * and panics (`None`); padded, every fetch at or past the end yields 0. */
  function FetchByte(code: seq<U8>, pc: nat, mode: Fetching): (r: Option<U8>)
    ensures r.None? <==> mode == AsWritten && pc == |code|
    ensures pc < |code| ==> r == Some(code[pc])
    ensures pc > |code| || (mode == Padded && pc == |code|) ==> r == Some(0)
  {
    match mode
    case AsWritten => if pc > |code| then Some(0) else if pc == |code| then None else Some(code[pc])
    case Padded => if pc >= |code| then Some(0) else Some(code[pc])
  }

  /** `n` fetches in a row from `pc`: `None` when one of them panics. */
  function FetchBytes(code: seq<U8>, pc: nat, n: nat, mode: Fetching): (r: Option<seq<U8>>)
    ensures r.None? <==> mode == AsWritten && pc <= |code| < pc + n
    ensures r.None? ==> FetchByte(code, |code|, mode).None?
    ensures r.Some? ==> |r.value| == n
    ensures r.Some? ==> forall k :: 0 <= k < n ==> FetchByte(code, pc + k, mode) == Some(r.value[k])
  {
    if mode == AsWritten && pc <= |code| < pc + n then None
    else Some(seq(n, k requires 0 <= k < n => if pc + k < |code| then code[pc + k] else 0))
  }

  /** The text `step` writes for an instruction and its operand bytes; a
    * `Load` value is written by `showF64`, the `{}` rendering of an `f64`. */
  function Line(c: Opcode, b: seq<U8>, showF64: real -> string): string
    requires |b| == Arity(c)
  {
    match c
    case Nop => "nop"
    case Add => VmOp.RegText(b[0]) + " += " + VmOp.RegText(b[1])
    case Sub => VmOp.RegText(b[0]) + " -= " + VmOp.RegText(b[1])
    case Mul => VmOp.RegText(b[0]) + " *= " + VmOp.RegText(b[1])
    case Div => VmOp.RegText(b[0]) + " /= " + VmOp.RegText(b[1])
    case Abs => VmOp.RegText(b[0]) + " = |" + VmOp.RegText(b[0]) + "|"
    case Neg => VmOp.RegText(b[0]) + " = -" + VmOp.RegText(b[0])
    case Pow => VmOp.RegText(b[0]) + " = " + VmOp.RegText(b[0]) + " ** " + VmOp.RegText(b[1])
    case Log => VmOp.RegText(b[0]) + " = ln(" + VmOp.RegText(b[0]) + ")"
    case Load => "[" + VmOp.RegText(b[0]) + "] = " + showF64(VmOp.FixedPoint(b[1], b[2]))
    case Copy => VmOp.RegText(b[0]) + " = " + VmOp.RegText(b[1])
    case Jmp => "jmp " + IntToString(AsI8(b[0]))
    case Jlt => "if " + VmOp.RegText(b[0]) + " < " + VmOp.RegText(b[1]) + ": jmp " + IntToString(AsI8(b[2]))
    case Jle => "if " + VmOp.RegText(b[0]) + " <= " + VmOp.RegText(b[1]) + ": jmp " + IntToString(AsI8(b[2]))
    case Jeq => "if " + VmOp.RegText(b[0]) + " == " + VmOp.RegText(b[1]) + ": jmp " + IntToString(AsI8(b[2]))
  }

  /** Where the instruction at `pc` ends. */
  function Next(code: seq<U8>, pc: nat, mode: Fetching, decode: U8 -> Opcode): nat
    requires FetchByte(code, pc, mode).Some?
  {
    pc + 1 + Arity(decode(FetchByte(code, pc, mode).value))
  }

  /** `step`: the line written and the new `pc`, or `None` for a panic.
    * `decode` is the byte-to-opcode conversion. */
  function StepSpec(code: seq<U8>, pc: nat, mode: Fetching, decode: U8 -> Opcode, showF64: real -> string): (r: Option<(string, nat)>)
    ensures r.None? <==> (mode == AsWritten && pc <= |code| &&
      (pc == |code| || |code| < Next(code, pc, mode, decode)))
    ensures r.Some? ==> r.value.1 == Next(code, pc, mode, decode) > pc
  {
    match FetchByte(code, pc, mode)
    case None => None
    case Some(b) =>
      var c := decode(b);
      match FetchBytes(code, pc + 1, Arity(c), mode)
      case None => None
      case Some(ops) => Some((Line(c, ops, showF64) + "\n", pc + 1 + Arity(c)))
  }

  /** `disasm` from `pc`: steps until one ends at or past the end of the
    * code (at least one step is always taken). */
  function DisasmFrom(code: seq<U8>, pc: nat, mode: Fetching, decode: U8 -> Opcode, showF64: real -> string): Option<string>
    decreases if pc <= |code| then |code| - pc else 0
  {
    match StepSpec(code, pc, mode, decode, showF64)
    case None => None
    case Some((line, next)) =>
      if next >= |code| then Some(line)
      else
        match DisasmFrom(code, next, mode, decode, showF64)
        case None => None
        case Some(rest) => Some(line + rest)
  }

  /** The code from `pc` on splits into whole instructions: the last one
    * ends exactly at the end of the code. */
  predicate Fits(code: seq<U8>, pc: nat, decode: U8 -> Opcode)
    decreases |code| - pc
  {
    pc < |code| &&
    var e := pc + 1 + Arity(decode(code[pc]));
    e <= |code| && (e < |code| ==> Fits(code, e, decode))
  }

  /** With the fetch its comment describes, disassembly never panics. */
  lemma {:induction false} PaddedNeverPanics(code: seq<U8>, pc: nat, decode: U8 -> Opcode, showF64: real -> string)
    ensures DisasmFrom(code, pc, Padded, decode, showF64).Some?
    decreases if pc <= |code| then |code| - pc else 0
  {
    var next := Next(code, pc, Padded, decode);
    if next < |code| {
      PaddedNeverPanics(code, next, decode, showF64);
    }
  }

  /** Where the fetch as written does not panic, it reads what the padded
    * one reads. */
  lemma {:induction false} AsWrittenAgrees(code: seq<U8>, pc: nat, decode: U8 -> Opcode, showF64: real -> string)
    requires DisasmFrom(code, pc, AsWritten, decode, showF64).Some?
    ensures DisasmFrom(code, pc, AsWritten, decode, showF64) == DisasmFrom(code, pc, Padded, decode, showF64)
    decreases if pc <= |code| then |code| - pc else 0
  {
    DisasmSomeIff(code, pc, AsWritten, decode, showF64);
    StepAgrees(code, pc, decode, showF64);
    var next := StepSpec(code, pc, AsWritten, decode, showF64).value.1;
    if next < |code| {
      AsWrittenAgrees(code, next, decode, showF64);
    }
  }

  /** A step that does not panic as written reads what the padded step
    * reads. */
  lemma StepAgrees(code: seq<U8>, pc: nat, decode: U8 -> Opcode, showF64: real -> string)
    requires StepSpec(code, pc, AsWritten, decode, showF64).Some?
    ensures StepSpec(code, pc, AsWritten, decode, showF64) == StepSpec(code, pc, Padded, decode, showF64)
  {
    var b := FetchByte(code, pc, Padded);
    assert FetchByte(code, pc, AsWritten) == b;
    var n := Arity(decode(b.value));
    assert FetchBytes(code, pc + 1, n, AsWritten) == FetchBytes(code, pc + 1, n, Padded);
  }

  /** As written, disassembly from inside the code succeeds exactly when the
    * rest of the code is whole instructions: a program whose last
    * instruction is cut short panics instead of reading zeros. */
  lemma {:induction false} AsWrittenPanicsIff(code: seq<U8>, pc: nat, decode: U8 -> Opcode, showF64: real -> string)
    requires pc < |code|
    ensures DisasmFrom(code, pc, AsWritten, decode, showF64).Some? <==> Fits(code, pc, decode)
    decreases |code| - pc
  {
    DisasmSomeIff(code, pc, AsWritten, decode, showF64);
    var next := pc + 1 + Arity(decode(code[pc]));
    assert FetchByte(code, pc, AsWritten) == Some(code[pc]);
    if next < |code| {
      AsWrittenPanicsIff(code, next, decode, showF64);
    }
  }

  /** Disassembly succeeds when its first step does and, unless that step
    * reaches the end, so does the rest. */
  lemma DisasmSomeIff(code: seq<U8>, pc: nat, mode: Fetching, decode: U8 -> Opcode, showF64: real -> string)
    ensures var st := StepSpec(code, pc, mode, decode, showF64);
      DisasmFrom(code, pc, mode, decode, showF64).Some? <==>
      st.Some? && (st.value.1 >= |code| || DisasmFrom(code, st.value.1, mode, decode, showF64).Some?)
  {
  }

  /** As written, an empty program and a lone `Add` opcode without its
    * operands both panic; padded, they read as "nop" and "r0 += r0". */
  lemma AsWrittenPanicExamples(decode: U8 -> Opcode, showF64: real -> string)
    requires decode(0) == Nop && decode(1) == Add
    ensures DisasmFrom([], 0, AsWritten, decode, showF64).None?
    ensures DisasmFrom([1], 0, AsWritten, decode, showF64).None?
    ensures DisasmFrom([], 0, Padded, decode, showF64) == Some("nop\n")
    ensures DisasmFrom([1], 0, Padded, decode, showF64) == Some("r0 += r0\n")
  {
    assert FetchByte([1], 1, AsWritten).None?;
    assert NatToString(0) == "0";
    assert VmOp.RegText(0) == "r0";
    var none: seq<U8> := [];
    assert FetchBytes([], 1, 0, Padded).value == none;
    assert Line(Nop, none, showF64) + "\n" == "nop\n";
    assert "r0 += r0" + "\n" == "r0 += r0\n";
    var zs: seq<U8> := [0, 0];
    var fb := FetchBytes([1], 1, 2, Padded).value;
    assert fb[0] == 0 && fb[1] == 0;
    assert fb == zs;
    assert Line(Add, zs, showF64) == "r0 += r0";
  }

  /** The disassembler's own test: [0, 1, 2, 3] is a `nop` and an addition
    * of register 3 to register 2, with either reading of the fetch. */
  lemma BasicDisasm(decode: U8 -> Opcode, showF64: real -> string)
    requires decode(0) == Nop && decode(1) == Add
    ensures DisasmFrom([0, 1, 2, 3], 0, AsWritten, decode, showF64) == Some("nop\nr2 += r3\n")
    ensures DisasmFrom([0, 1, 2, 3], 0, Padded, decode, showF64) == Some("nop\nr2 += r3\n")
  {
    var code: seq<U8> := [0, 1, 2, 3];
    assert NatToString(2) == "2" && NatToString(3) == "3";
    var ops: seq<U8> := [2, 3];
    var fa, fp := FetchBytes(code, 2, 2, AsWritten).value, FetchBytes(code, 2, 2, Padded).value;
    assert fa[0] == 2 && fa[1] == 3 && fp[0] == 2 && fp[1] == 3;
    assert fa == ops && fp == ops;
    assert VmOp.RegText(2) == "r2" && VmOp.RegText(3) == "r3";
    assert Line(Add, ops, showF64) == "r2 += r3";
    var none: seq<U8> := [];
    assert FetchBytes(code, 1, 0, AsWritten).value == none;
    assert FetchBytes(code, 1, 0, Padded).value == none;
    assert "r2 += r3" + "\n" == "r2 += r3\n";
    assert "nop" + "\n" + "r2 += r3\n" == "nop\nr2 += r3\n";
    assert DisasmFrom(code, 1, AsWritten, decode, showF64) == Some("r2 += r3\n");
    assert DisasmFrom(code, 1, Padded, decode, showF64) == Some("r2 += r3\n");
  }

  /** A result carried after the text already written. */
  function Then(prog: string, o: Option<string>): Option<string> {
    if o.Some? then Some(prog + o.value) else None
  }

  /** One step of `disasm` moves its text from the result to the output. */
  lemma {:induction false} ThenStep(code: seq<U8>, pc: nat, prog: string, mode: Fetching, decode: U8 -> Opcode, showF64: real -> string)
    ensures StepSpec(code, pc, mode, decode, showF64).None? ==>
      Then(prog, DisasmFrom(code, pc, mode, decode, showF64)).None?
    ensures StepSpec(code, pc, mode, decode, showF64).Some? ==>
      var s := StepSpec(code, pc, mode, decode, showF64).value;
      Then(prog, DisasmFrom(code, pc, mode, decode, showF64)) ==
        if s.1 >= |code| then Some(prog + s.0) else Then(prog + s.0, DisasmFrom(code, s.1, mode, decode, showF64))
  {
    var st := StepSpec(code, pc, mode, decode, showF64);
    if st.Some? && st.value.1 < |code| {
      var rest := DisasmFrom(code, st.value.1, mode, decode, showF64);
      if rest.Some? {
        assert prog + (st.value.0 + rest.value) == (prog + st.value.0) + rest.value;
      }
    }
  }

  class LgpDisasm {
    var pc: nat
    const code: seq<U8>
    var prog: string

    /** `LgpDisasm::new`. */
    constructor (code: seq<U8>)
      ensures pc == 0 && this.code == code && prog == ""
    {
      pc, this.code, prog := 0, code, "";
    }

    /** `fetch`, under either reading of its bounds test; `None` is the
      * panic of indexing past the code. */
    method Fetch(mode: Fetching) returns (v: Option<U8>)
      modifies this
      ensures v == FetchByte(code, old(pc), mode)
      ensures pc == old(pc) + 1 && prog == old(prog)
    {
      if mode == AsWritten && pc == |code| {
        v := None;
      } else if pc >= |code| {
        v := Some(0);
      } else {
        v := Some(code[pc]);
      }
      pc := pc + 1;
    }

    /** `step`: `None` is a panic, otherwise whether the disassembly has
      * finished. */
    method Step(mode: Fetching, decode: U8 -> Opcode, showF64: real -> string) returns (finished: Option<bool>)
      modifies this
      ensures finished.None? <==> StepSpec(code, old(pc), mode, decode, showF64).None?
      ensures finished.Some? ==>
        var s := StepSpec(code, old(pc), mode, decode, showF64).value;
        pc == s.1 && prog == old(prog) + s.0 && finished.value == (pc >= |code|)
    {
      var b := Fetch(mode);
      if b.None? {
        return None;
      }
      var c := decode(b.value);
      var ops: seq<U8> := [];
      ghost var start := pc;
      while |ops| < Arity(c)
        invariant pc == start + |ops| <= start + Arity(c) && prog == old(prog)
        invariant forall k :: 0 <= k < |ops| ==> FetchByte(code, start + k, mode) == Some(ops[k])
        invariant !(mode == AsWritten && start <= |code| < pc)
      {
        var v := Fetch(mode);
        if v.None? {
          assert FetchBytes(code, start, Arity(c), mode).None?;
          return None;
        }
        ops := ops + [v.value];
      }
      var fetched := FetchBytes(code, start, Arity(c), mode);
      assert fetched.value == ops;
      assert StepSpec(code, old(pc), mode, decode, showF64) == Some((Line(c, ops, showF64) + "\n", pc));
      prog := prog + (Line(c, ops, showF64) + "\n");
      finished := Some(pc >= |code|);
    }

    /** `disasm`: steps until one finishes, then returns the text written;
      * `None` is a panic. */
    method Disasm(mode: Fetching, decode: U8 -> Opcode, showF64: real -> string) returns (r: Option<string>)
      modifies this
      ensures r == Then(old(prog), DisasmFrom(code, old(pc), mode, decode, showF64))
    {
      ghost var want := Then(prog, DisasmFrom(code, pc, mode, decode, showF64));
      ThenStep(code, pc, prog, mode, decode, showF64);
      var finished := Step(mode, decode, showF64);
      while finished.Some? && !finished.value
        invariant finished.None? ==> want.None?
        invariant finished == Some(true) ==> want == Some(prog)
        invariant finished == Some(false) ==> pc < |code| && want == Then(prog, DisasmFrom(code, pc, mode, decode, showF64))
        decreases if finished == Some(false) then |code| - pc + 1 else 0
      {
        ThenStep(code, pc, prog, mode, decode, showF64);
        finished := Step(mode, decode, showF64);
      }
      if finished.None? {
        return None;
      }
      return Some(prog);
    }
  }
}

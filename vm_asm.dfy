// The text assembler of src/evaluators/lgp/vm/asm.rs: one instruction per
// line, a mnemonic followed by register tokens such as "r3," and, for
// `load`, a floating-point literal.
module VmAsm {
  import opened Common
  import opened Text
  import opened VmOpcode

  /** The mnemonic of each opcode. */
  function Mnemonic(c: Opcode): string {
    match c
    case Add => "add"
    case Sub => "sub"
    case Mul => "mul"
    case Div => "div"
    case Abs => "abs"
    case Neg => "neg"
    case Pow => "pow"
    case Ln => "ln"
    case Sin => "sin"
    case Cos => "cos"
    case Load => "load"
    case Copy => "copy"
    case IfLt => "iflt"
  }

  /** The mnemonic match at the head of `lgp_asm_op`. */
  function ParseMnemonic(s: string): (r: Option<Opcode>)
    ensures r.Some? ==> Mnemonic(r.value) == s
  {
    if s == "add" then Some(Add)
    else if s == "sub" then Some(Sub)
    else if s == "mul" then Some(Mul)
    else if s == "div" then Some(Div)
    else if s == "abs" then Some(Abs)
    else if s == "neg" then Some(Neg)
    else if s == "pow" then Some(Pow)
    else if s == "ln" then Some(Ln)
    else if s == "sin" then Some(Sin)
    else if s == "cos" then Some(Cos)
    else if s == "load" then Some(Load)
    else if s == "copy" then Some(Copy)
    else if s == "iflt" then Some(IfLt)
    else None
  }

  /** Every mnemonic is recognised as its own opcode, so the table is
    * injective. */
  lemma MnemonicRoundTrip(c: Opcode)
    ensures ParseMnemonic(Mnemonic(c)) == Some(c)
  {
  }

  /** A register token: commas removed, the first character dropped
    * (whatever it is) and the rest parsed as a `u8`. Dropping one byte of
    * an empty text, or of a text whose first character takes more than one
    * byte in UTF-8, panics. */
  function RegValue(tok: string): (r: Outcome<U8>)
    ensures r.Panic? <==> |Delete(tok, {','})| == 0 || Delete(tok, {','})[0] as int >= 128
    ensures r.Done? ==> ParseU8(Delete(tok, {','})[1..]) == Some(r.value)
  {
    var t := Delete(tok, {','});
    if |t| == 0 || t[0] as int >= 128 then Panic
    else
      match ParseU8(t[1..])
      case None => Error(U8ErrorText(t[1..]))
      case Some(v) => Done(v)
  }

  /** `n` register tokens read from `ws[i..]`, left to right; the first
    * missing or malformed one decides the failure. */
  function Regs(ws: seq<string>, i: nat, n: nat): (r: Outcome<seq<U8>>)
    ensures r.Done? ==> |r.value| == n && (n > 0 ==> i + n <= |ws|)
    ensures r.Done? ==> forall k :: 0 <= k < n ==> RegValue(ws[i + k]) == Done(r.value[k])
    decreases n
  {
    if n == 0 then Done([])
    else if i >= |ws| then Error("missing register")
    else
      var v := RegValue(ws[i]);
      if !v.Done? then Fail(v)
      else
        var rest := Regs(ws, i + 1, n - 1);
        if !rest.Done? then rest else Done([v.value] + rest.value)
  }

  /** Number of tokens that follow the mnemonic of an opcode. */
  function Arity(c: Opcode): (n: nat)
    ensures n == |InputRegs(OperandsOf(c)) + OutputRegs(OperandsOf(c))| + (if c == Load then 1 else 0)
  {
    match OperandsOf(c)
    case Reg2Cmp(_, _) => 2
    case Reg2Assign(_, _) => 2
    case Reg3Assign(_, _, _) => 3
    case ImmAssign(_, _) => 2
  }

  /** `lgp_asm_op` on the whitespace-separated tokens of a line.
    * `parseImm` is `str::parse::<f32>`; tokens past the last operand are
    * never read. */
  function AsmWords(ws: seq<string>, parseImm: string -> Option<real>): (r: Outcome<Op>)
    ensures r.Done? ==> WellShaped(r.value)
    ensures r.Done? ==> |ws| >= 1 + Arity(r.value.code) && ParseMnemonic(ws[0]) == Some(r.value.code)
    ensures ws == [] ==> r == Error("missing token")
    ensures ws != [] && ParseMnemonic(ws[0]).None? ==> r == Error("unknown instruction format")
  {
    if ws == [] then Error("missing token")
    else
      match ParseMnemonic(ws[0])
      case None => Error("unknown instruction format")
      case Some(c) =>
        match OperandsOf(c)
        case Reg2Cmp(_, _) =>
          var rs := Regs(ws, 1, 2);
          if !rs.Done? then Fail(rs) else Done(Op(c, Reg2Cmp(rs.value[0], rs.value[1])))
        case Reg2Assign(_, _) =>
          var rs := Regs(ws, 1, 2);
          if !rs.Done? then Fail(rs) else Done(Op(c, Reg2Assign(rs.value[0], rs.value[1])))
        case Reg3Assign(_, _, _) =>
          var rs := Regs(ws, 1, 3);
          if !rs.Done? then Fail(rs) else Done(Op(c, Reg3Assign(rs.value[0], rs.value[1], rs.value[2])))
        case ImmAssign(_, _) =>
          var rs := Regs(ws, 1, 1);
          if !rs.Done? then Fail(rs)
          else if |ws| < 3 then Error("missing register")
          else
            match parseImm(ws[2])
            case None => Error(FloatErrorText(ws[2]))
            case Some(x) => Done(Op(c, ImmAssign(rs.value[0], x)))
  }

  /** `lgp_asm_op`. */
  function AsmOp(line: string, parseImm: string -> Option<real>): Outcome<Op> {
    AsmWords(Words(line), parseImm)
  }

  /** `lgp_asm` over a list of lines: the first line that fails decides
    * the result. */
  function AsmLines(ls: seq<string>, parseImm: string -> Option<real>): (r: Outcome<seq<Op>>)
    ensures r.Done? ==> |r.value| == |ls|
    ensures r.Done? ==> forall i :: 0 <= i < |ls| ==> AsmOp(ls[i], parseImm) == Done(r.value[i])
    ensures !r.Done? ==> exists i :: 0 <= i < |ls| && !AsmOp(ls[i], parseImm).Done?
  {
    if ls == [] then Done([])
    else
      var op := AsmOp(ls[0], parseImm);
      if !op.Done? then Fail(op)
      else
        var rest := AsmLines(ls[1..], parseImm);
        if !rest.Done? then rest else Done([op.value] + rest.value)
  }

  /** `lgp_asm`: assemble each line of the text. */
  function Asm(s: string, parseImm: string -> Option<real>): Outcome<seq<Op>> {
    AsmLines(Lines(s), parseImm)
  }

  /** The instructions already pushed, in front of what the remaining
    * lines assemble to. */
  function AppendTo(ops: seq<Op>, rest: Outcome<seq<Op>>): Outcome<seq<Op>> {
    if rest.Done? then Done(ops + rest.value) else rest
  }

  /** Nothing pushed yet, or nothing left to assemble. */
  lemma AppendToNone(rest: Outcome<seq<Op>>)
    ensures AppendTo([], rest) == rest
    ensures rest.Done? ==> AppendTo(rest.value, Done([])) == rest
  {
    if rest.Done? {
      assert [] + rest.value == rest.value;
      assert rest.value + [] == rest.value;
    }
  }

  /** Pushing one more instruction moves it from the rest to the front. */
  lemma AppendToAppend(ops: seq<Op>, op: Op, rest: Outcome<seq<Op>>)
    ensures AppendTo(ops, AppendTo([op], rest)) == AppendTo(ops + [op], rest)
  {
    if rest.Done? {
      assert ops + ([op] + rest.value) == (ops + [op]) + rest.value;
    }
  }

  /** One step of `AsmLines` on a non-empty list of lines. */
  lemma {:induction false} AsmLinesUnfold(ls: seq<string>, parseImm: string -> Option<real>)
    requires ls != []
    ensures AsmLines(ls, parseImm) ==
      if !AsmOp(ls[0], parseImm).Done? then Fail(AsmOp(ls[0], parseImm))
      else AppendTo([AsmOp(ls[0], parseImm).value], AsmLines(ls[1..], parseImm))
  {
  }

  /** `lgp_asm` as written: each line's instruction is pushed in turn, and
    * the first line that fails returns its failure. */
  method Assemble(s: string, parseImm: string -> Option<real>) returns (r: Outcome<seq<Op>>)
    ensures r == Asm(s, parseImm)
  {
    var ls := Lines(s);
    var ops: seq<Op> := [];
    var i := 0;
    assert ls[0..] == ls;
    AppendToNone(AsmLines(ls, parseImm));
    while i < |ls|
      invariant 0 <= i <= |ls|
      invariant AsmLines(ls, parseImm) == AppendTo(ops, AsmLines(ls[i..], parseImm))
    {
      AsmLinesUnfold(ls[i..], parseImm);
      assert ls[i..][0] == ls[i] && ls[i..][1..] == ls[i + 1..];
      var op := AsmOp(ls[i], parseImm);
      if !op.Done? {
        return Fail(op);
      }
      AppendToAppend(ops, op.value, AsmLines(ls[i + 1..], parseImm));
      ops := ops + [op.value];
      i := i + 1;
    }
    assert ls[i..] == [];
    AppendToNone(Done(ops));
    return Done(ops);
  }

  /** A line is assembled from the tokens its opcode needs: anything after
    * them is ignored. */
  lemma {:induction false} RegsPrefix(ws: seq<string>, extra: seq<string>, i: nat, n: nat)
    requires i + n <= |ws|
    ensures Regs(ws + extra, i, n) == Regs(ws, i, n)
    decreases n
  {
    if n > 0 {
      assert (ws + extra)[i] == ws[i];
      RegsPrefix(ws, extra, i + 1, n - 1);
    }
  }

  lemma TrailingTokensIgnored(ws: seq<string>, extra: seq<string>, parseImm: string -> Option<real>)
    requires AsmWords(ws, parseImm).Done?
    ensures AsmWords(ws + extra, parseImm) == AsmWords(ws, parseImm)
  {
    var c := AsmWords(ws, parseImm).value.code;
    assert (ws + extra)[0] == ws[0];
    RegsPrefix(ws, extra, 1, if c == Load then 1 else Arity(c));
    if c == Load {
      assert (ws + extra)[2] == ws[2];
    }
  }

  /** The first character of a register token is never checked: "x7" is
    * register 7 just as "r7" is. */
  lemma AnyRegisterPrefix(c: char, digits: string)
    requires c != ',' && c as int < 128
    ensures RegValue([c] + digits) == RegValue("r" + digits)
  {
    DeleteAppend([c], digits, {','});
    DeleteAppend("r", digits, {','});
    assert Delete([c], {','}) == [c];
    assert Delete("r", {','}) == "r";
    assert ([c] + Delete(digits, {','}))[1..] == Delete(digits, {','});
    assert ("r" + Delete(digits, {','}))[1..] == Delete(digits, {','});
  }

  /** A register token made only of commas leaves nothing to slice: the
    * assembler panics instead of returning an error. */
  lemma BareCommaPanics(parseImm: string -> Option<real>)
    ensures AsmWords(["neg", ",", "r1"], parseImm) == Panic
  {
    assert RegValue(",") == Panic by {
      assert Delete(",", {','}) == [];
    }
  }

  lemma RegTokenExamples()
    ensures RegValue("r0,") == Done(0)
    ensures RegValue("r1,") == Done(1)
    ensures RegValue("r256") == Error("number too large to fit in target type")
  {
    assert Delete("r0,", {','}) == "r0" by {
      DeleteAppend("r0", ",", {','});
      assert "r0" + "," == "r0,";
      DeleteNone("r0", {','});
    }
    assert Delete("r1,", {','}) == "r1" by {
      DeleteAppend("r1", ",", {','});
      assert "r1" + "," == "r1,";
      DeleteNone("r1", {','});
    }
    assert Delete("r256", {','}) == "r256" by { DeleteNone("r256", {','}); }
    assert "r0"[1..] == "0";
    assert "r1"[1..] == "1";
    assert "r256"[1..] == "256";
    ParseExamples();
    IntErrorExamples();
    assert ParseU8("0") == Some(0) by { ParseU8Show(0); assert NatToString(0) == "0"; }
    assert ParseU8("1") == Some(1) by { ParseU8Show(1); assert NatToString(1) == "1"; }
  }

  /** An empty line and an unknown mnemonic. */
  lemma AsmMnemonicErrors(parseImm: string -> Option<real>)
    ensures AsmWords([], parseImm) == Error("missing token")
    ensures AsmWords(["mov", "r1", "r2"], parseImm) == Error("unknown instruction format")
  {
    assert ParseMnemonic("mov") == None;
  }

  /** A missing third register. */
  lemma AsmMissingRegister(ws: seq<string>, parseImm: string -> Option<real>)
    requires ws == ["add", "r0,", "r1,"]
    ensures AsmWords(ws, parseImm) == Error("missing register")
  {
    RegTokenExamples();
    assert ParseMnemonic(ws[0]) == Some(Add);
    assert Regs(ws, 3, 1) == Error("missing register");
    assert Regs(ws, 2, 2) == Error("missing register");
  }

  /** A register number that does not fit in a `u8`. */
  lemma AsmRegisterOutOfRange(ws: seq<string>, parseImm: string -> Option<real>)
    requires ws == ["copy", "r0,", "r256"]
    ensures AsmWords(ws, parseImm) == Error("number too large to fit in target type")
  {
    assert ParseMnemonic(ws[0]) == Some(Copy) by {
      MnemonicRoundTrip(Copy);
      assert Mnemonic(Copy) == ws[0];
    }
    assert RegValue(ws[1]) == Done(0) && RegValue(ws[2]) == Error("number too large to fit in target type") by {
      RegTokenExamples();
      assert ws[1] == "r0," && ws[2] == "r256";
    }
    assert Regs(ws, 2, 1) == Error("number too large to fit in target type");
    assert Regs(ws, 1, 2) == Error("number too large to fit in target type");
  }
}

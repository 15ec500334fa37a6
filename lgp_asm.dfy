// The assembler of src/lgp/asm.rs: one instruction per line, a mnemonic
// followed by the tokens the opcode's operand table asks for. It builds the
// instructions of src/evaluators/lgp/vm/op.rs, whose `Display` writes the
// text it reads.
module LgpAsm {
  import opened Common
  import opened Text
  import opened VmOp
  import VmExec

  /** The mnemonic match at the head of `lgp_asm_op`. */
  function ParseMnemonic(s: string): (r: Option<Opcode>)
    ensures r.Some? ==> Mnemonic(r.value) == s
  {
    if s == "nop" then Some(Nop)
    else if s == "add" then Some(Add)
    else if s == "sub" then Some(Sub)
    else if s == "mul" then Some(Mul)
    else if s == "div" then Some(Div)
    else if s == "abs" then Some(Abs)
    else if s == "neg" then Some(Neg)
    else if s == "pow" then Some(Pow)
    else if s == "ln" then Some(Log)
    else if s == "load" then Some(Load)
    else if s == "mov" then Some(IndirectCopy)
    else if s == "jlt" then Some(Jlt)
    else if s == "jle" then Some(Jle)
    else if s == "jeq" then Some(Jeq)
    else None
  }

  /** Every displayed mnemonic is read back as its own opcode. */
  lemma MnemonicRoundTrip(c: Opcode)
    ensures ParseMnemonic(Mnemonic(c)) == Some(c)
  {
  }

  /** The characters a register token may carry around its number. */
  const RegPunct: set<char> := {',', '[', ']'}

  /** A register token: commas and brackets removed, the first character
    * dropped (whatever it is) and the rest parsed as a `u8`. Dropping one
    * byte of an empty text, or of a text whose first character takes more
    * than one byte in UTF-8, panics. */
  function RegValue(tok: string): (r: Outcome<U8>)
    ensures r.Panic? <==> |Delete(tok, RegPunct)| == 0 || Delete(tok, RegPunct)[0] as int >= 128
    ensures r.Done? ==> ParseU8(Delete(tok, RegPunct)[1..]) == Some(r.value)
    ensures r.Error? ==> ParseU8(Delete(tok, RegPunct)[1..]).None?
  {
    var t := Delete(tok, RegPunct);
    if |t| == 0 || t[0] as int >= 128 then Panic
    else
      match ParseU8(t[1..])
      case None => Error(U8ErrorText(t[1..]))
      case Some(v) => Done(v)
  }

  /** `f64 as u8`: saturating at both ends. */
  function SatU8(x: int): (r: U8)
    ensures 0 <= x < 256 ==> r == x
    ensures x < 0 ==> r == 0
    ensures x >= 256 ==> r == 255
  {
    if x < 0 then 0 else if x > 255 then 255 else x
  }

  /** `f64::fract`: the part after the point, with the sign of `x`. */
  function Fract(x: real): (f: real)
    ensures -1.0 < f < 1.0
    ensures x >= 0.0 ==> 0.0 <= f
  {
    x - VmExec.Trunc(x) as real
  }

  /** The two bytes an immediate is stored as: the low byte is
    * `floor(fract(x) * 256)` and the high byte `floor(x)`, both cast to
    * `u8`. */
  function ImmBytes(x: real): (r: (U8, U8))
    ensures 0.0 <= x < 256.0 ==> r.1 == x.Floor
    ensures 0.0 <= x < 256.0 ==> r.0 == ((x - x.Floor as real) * 256.0).Floor
  {
    (SatU8((Fract(x) * 256.0).Floor), SatU8(x.Floor))
  }

  /** An immediate in [0, 256) is stored as the fixed-point value at or just
    * below it: rounding down to a multiple of 1/256. */
  lemma ImmBytesRoundDown(x: real)
    requires 0.0 <= x < 256.0
    ensures FixedPoint(ImmBytes(x).0, ImmBytes(x).1) <= x < FixedPoint(ImmBytes(x).0, ImmBytes(x).1) + 1.0 / 256.0
  {
    var f := x - x.Floor as real;
    assert 0.0 <= f < 1.0;
    var lo := (f * 256.0).Floor;
    assert lo as real <= f * 256.0 < lo as real + 1.0;
  }

  /** A fixed-point value is stored as the bytes it was made of. */
  lemma ImmBytesFixedPoint(lo: U8, hi: U8)
    ensures ImmBytes(FixedPoint(lo, hi)) == (lo, hi)
  {
    var x := FixedPoint(lo, hi);
    assert x.Floor == hi;
    assert (x - hi as real) * 256.0 == lo as real;
  }

  /** The operand loop of `lgp_asm_op` from position `i`, with `idx` bytes
    * written so far; the next token is `ws[idx + 1]`, since every operand
    * takes exactly one token. An immediate fills two bytes and ends the
    * instruction at once; writing its second byte past the third panics.
    * `parseF64` is `str::parse::<f64>`. */
  function Operands(c: Opcode, ws: seq<string>, i: nat, idx: nat, data: Data, parseF64: string -> Option<real>): (r: Outcome<Data>)
    requires idx <= i <= 3
    decreases 3 - i
  {
    if i == 3 then Done(data)
    else
      match OperandAt(c, i)
      case NoOperand => Operands(c, ws, i + 1, idx, data, parseF64)
      case Register =>
        if idx + 1 >= |ws| then Error("missing register")
        else
          var v := RegValue(ws[idx + 1]);
          if !v.Done? then Fail(v) else Operands(c, ws, i + 1, idx + 1, data[idx := v.value], parseF64)
      case Immediate =>
        if idx + 1 >= |ws| then Error("missing immediate for Load")
        else
          (match parseF64(ws[idx + 1])
           case None => Error(FloatErrorText(ws[idx + 1]))
           case Some(x) =>
             if idx + 1 >= 3 then Panic
             else
               var filled: Data := data[idx := ImmBytes(x).0][idx + 1 := ImmBytes(x).1];
               Done(filled))
      case Relative =>
        if idx + 1 >= |ws| then Error("missing relative jump immediate")
        else
          match ParseI8(ws[idx + 1])
          case None => Error(I8ErrorText(ws[idx + 1]))
          case Some(v) => Operands(c, ws, i + 1, idx + 1, data[idx := I8Byte(v)], parseF64)
  }

  /** `lgp_asm_op` on the whitespace-separated tokens of a line. */
  function AsmWords(ws: seq<string>, parseF64: string -> Option<real>): (r: Outcome<Op>)
    ensures ws == [] ==> r == Error("missing token")
    ensures ws != [] && ParseMnemonic(ws[0]).None? ==> r == Error("unknown instruction format")
    ensures r.Done? ==> ws != [] && ParseMnemonic(ws[0]) == Some(r.value.code)
  {
    if ws == [] then Error("missing token")
    else
      match ParseMnemonic(ws[0])
      case None => Error("unknown instruction format")
      case Some(c) =>
        var d := Operands(c, ws, 0, 0, [0, 0, 0], parseF64);
        if d.Done? then Done(Op(c, d.value)) else Fail(d)
  }

  /** What `lgp_asm_op` makes of one line. */
  function AsmLine(line: string, parseF64: string -> Option<real>): Outcome<Op> {
    AsmWords(Words(line), parseF64)
  }

  /** The pass of the operand loop at an immediate: two bytes from one
    * `f64` token, and the instruction is decided. */
  method ImmediateStep(c: Opcode, ws: seq<string>, i: nat, idx: nat, data: Data, parseF64: string -> Option<real>)
    returns (stop: Option<Outcome<Data>>, idx': nat, data': Data)
    requires idx <= i < 3 && OperandAt(c, i) == Immediate
    ensures stop == Some(Operands(c, ws, i, idx, data, parseF64))
  {
    var next := idx + 1;
    if next >= |ws| {
      return Some(Error("missing immediate for Load")), idx, data;
    }
    var x := parseF64(ws[next]);
    if x.None? {
      return Some(Error(FloatErrorText(ws[next]))), idx, data;
    }
    var b := ImmBytes(x.value);
    data' := data[idx := b.0];
    idx' := idx + 1;
    if idx' >= 3 {
      return Some(Panic), idx', data';
    }
    data' := data'[idx' := b.1];
    return Some(Done(data')), idx', data';
  }

  /** One pass of the operand loop at position i, with idx bytes written:
    * either the instruction is decided (`Some`: an error, a panic, or the
    * data of a `Load`), or the loop goes on with the new count and data. */
  method OperandStep(c: Opcode, ws: seq<string>, i: nat, idx: nat, data: Data, parseF64: string -> Option<real>)
    returns (stop: Option<Outcome<Data>>, idx': nat, data': Data)
    requires idx <= i < 3
    ensures stop.Some? ==> stop.value == Operands(c, ws, i, idx, data, parseF64)
    ensures stop.None? ==> idx' <= i + 1
    ensures stop.None? ==> Operands(c, ws, i + 1, idx', data', parseF64) == Operands(c, ws, i, idx, data, parseF64)
  {
    stop, idx', data' := None, idx, data;
    var next := idx + 1;
    match OperandAt(c, i) {
      case NoOperand =>
      case Register =>
        if next >= |ws| {
          return Some(Error("missing register")), idx, data;
        }
        var v := RegValue(ws[next]);
        if !v.Done? {
          return Some(Fail(v)), idx, data;
        }
        data' := data[idx := v.value];
        idx' := idx + 1;
      case Immediate =>
        stop, idx', data' := ImmediateStep(c, ws, i, idx, data, parseF64);
      case Relative =>
        if next >= |ws| {
          return Some(Error("missing relative jump immediate")), idx, data;
        }
        var v := ParseI8(ws[next]);
        if v.None? {
          return Some(Error(I8ErrorText(ws[next]))), idx, data;
        }
        data' := data[idx := I8Byte(v.value)];
        idx' := idx + 1;
    }
  }

  /** The operand loop of `lgp_asm_op`: it walks the three positions of
    * the operand table, taking one token per operand. */
  method ReadOperands(c: Opcode, ws: seq<string>, parseF64: string -> Option<real>) returns (r: Outcome<Data>)
    ensures r == Operands(c, ws, 0, 0, [0, 0, 0], parseF64)
  {
    ghost var start := Operands(c, ws, 0, 0, [0, 0, 0], parseF64);
    var data: Data := [0, 0, 0];
    var idx := 0;
    for i := 0 to 3
      invariant idx <= i
      invariant Operands(c, ws, i, idx, data, parseF64) == start
    {
      var stop;
      stop, idx, data := OperandStep(c, ws, i, idx, data, parseF64);
      if stop.Some? {
        return stop.value;
      }
    }
    return Done(data);
  }

  /** `lgp_asm_op`: the mnemonic, then its operands. */
  method AsmOp(line: string, parseF64: string -> Option<real>) returns (r: Outcome<Op>)
    ensures r == AsmLine(line, parseF64)
  {
    var ws := Words(line);
    if |ws| == 0 {
      return Error("missing token");
    }
    var code := ParseMnemonic(ws[0]);
    if code.None? {
      return Error("unknown instruction format");
    }
    var d := ReadOperands(code.value, ws, parseF64);
    if !d.Done? {
      return Fail(d);
    }
    return Done(Op(code.value, d.value));
  }

  /** The program a list of lines assembles to: the first line that fails
    * decides the result. */
  function AsmLines(ls: seq<string>, parseF64: string -> Option<real>): (r: Outcome<seq<Op>>)
    ensures r.Done? <==> forall i :: 0 <= i < |ls| ==> AsmLine(ls[i], parseF64).Done?
    ensures r.Done? ==> |r.value| == |ls|
    ensures r.Done? ==> forall i :: 0 <= i < |ls| ==> AsmLine(ls[i], parseF64) == Done(r.value[i])
  {
    if ls == [] then Done([])
    else
      var op := AsmLine(ls[0], parseF64);
      if !op.Done? then Fail(op)
      else
        var rest := AsmLines(ls[1..], parseF64);
        assert forall i :: 1 <= i < |ls| ==> ls[i] == ls[1..][i - 1];
        if !rest.Done? then rest else Done([op.value] + rest.value)
  }

  /** A failed assembly reports the failure of its first failing line. */
  lemma {:induction false} AsmLinesFirstFailure(ls: seq<string>, parseF64: string -> Option<real>)
    requires !AsmLines(ls, parseF64).Done?
    ensures exists i ::
      && 0 <= i < |ls|
      && !AsmLine(ls[i], parseF64).Done?
      && AsmLines(ls, parseF64) == Fail(AsmLine(ls[i], parseF64))
      && (forall k :: 0 <= k < i ==> AsmLine(ls[k], parseF64).Done?)
  {
    if AsmLine(ls[0], parseF64).Done? {
      var rest := ls[1..];
      AsmLinesFirstFailure(rest, parseF64);
      var j :| 0 <= j < |rest| && !AsmLine(rest[j], parseF64).Done? &&
        AsmLines(rest, parseF64) == Fail(AsmLine(rest[j], parseF64)) &&
        forall k :: 0 <= k < j ==> AsmLine(rest[k], parseF64).Done?;
      assert ls[j + 1] == rest[j];
      assert AsmLines(ls, parseF64) == AsmLines(rest, parseF64);
      forall k | 0 <= k < j + 1 ensures AsmLine(ls[k], parseF64).Done? {
        if k > 0 {
          assert ls[k] == rest[k - 1];
        }
      }
    } else {
      assert AsmLines(ls, parseF64) == Fail(AsmLine(ls[0], parseF64));
    }
  }

  /** A result carried after the instructions already assembled. */
  function Prepend(ops: seq<Op>, o: Outcome<seq<Op>>): Outcome<seq<Op>> {
    if o.Done? then Done(ops + o.value) else o
  }

  /** One line of the loop of `lgp_asm`: a line that assembles is carried
    * over to the result, one that fails is the result. */
  lemma AsmLinesStep(ls: seq<string>, i: nat, ops: seq<Op>, parseF64: string -> Option<real>)
    requires i < |ls|
    ensures AsmLine(ls[i], parseF64).Done? ==>
      Prepend(ops, AsmLines(ls[i..], parseF64)) ==
      Prepend(ops + [AsmLine(ls[i], parseF64).value], AsmLines(ls[i + 1..], parseF64))
    ensures !AsmLine(ls[i], parseF64).Done? ==>
      Prepend(ops, AsmLines(ls[i..], parseF64)) == Fail(AsmLine(ls[i], parseF64))
  {
    assert ls[i..][0] == ls[i];
    assert ls[i..][1..] == ls[i + 1..];
    var rest := AsmLines(ls[i + 1..], parseF64);
    if AsmLine(ls[i], parseF64).Done? && rest.Done? {
      var op := AsmLine(ls[i], parseF64).value;
      assert ops + ([op] + rest.value) == (ops + [op]) + rest.value;
    }
  }

  /** `lgp_asm`: assemble each line of the text in turn, stopping at the
    * first line that fails. */
  method Asm(s: string, parseF64: string -> Option<real>) returns (r: Outcome<seq<Op>>)
    ensures r == AsmLines(Lines(s), parseF64)
  {
    var ls := Lines(s);
    var ops: seq<Op> := [];
    assert ls[0..] == ls;
    assert AsmLines(ls, parseF64).Done? ==> [] + AsmLines(ls, parseF64).value == AsmLines(ls, parseF64).value;
    for i := 0 to |ls|
      invariant Prepend(ops, AsmLines(ls[i..], parseF64)) == AsmLines(ls, parseF64)
    {
      AsmLinesStep(ls, i, ops, parseF64);
      var op := AsmOp(ls[i], parseF64);
      if !op.Done? {
        return Fail(op);
      }
      ops := ops + [op.value];
    }
    assert ls[|ls|..] == [];
    assert ops + [] == ops;
    return Done(ops);
  }

  /** An instruction whose unused bytes are zero: the only form the
    * assembler can produce. */
  predicate Canonical(op: Op) {
    forall i :: 0 <= i < 3 && OperandAt(op.code, i) == NoOperand ==> op.data[i] == 0
  }

  /** Every instruction the assembler produces has its unused bytes zero. */
  lemma AsmCanonical(ws: seq<string>, parseF64: string -> Option<real>)
    requires AsmWords(ws, parseF64).Done?
    ensures Canonical(AsmWords(ws, parseF64).value)
  {
    var c := ParseMnemonic(ws[0]).value;
    var z: Data := [0, 0, 0];
    match c {
      case Nop =>
      case Add | Sub | Mul | Div | Pow | IndirectCopy =>
        var a := RegValue(ws[1]).value;
        var b := RegValue(ws[2]).value;
        assert Operands(c, ws, 0, 0, z, parseF64) == Operands(c, ws, 2, 2, z[0 := a][1 := b], parseF64);
      case Abs | Neg | Log =>
        var a := RegValue(ws[1]).value;
        assert Operands(c, ws, 0, 0, z, parseF64) == Operands(c, ws, 1, 1, z[0 := a], parseF64);
      case Load | Jlt | Jle | Jeq =>
    }
  }

  /** From the second operand on, only a register token read as the second
    * operand can panic: no opcode has a register third, and a `Load`
    * immediate fits. */
  lemma {:induction false} PanicFromSecond(c: Opcode, ws: seq<string>, data: Data, parseF64: string -> Option<real>)
    requires Operands(c, ws, 1, 1, data, parseF64).Panic?
    ensures |ws| > 2 && RegValue(ws[2]).Panic?
  {
    if OperandAt(c, 1) == Register && |ws| > 2 && RegValue(ws[2]).Done? {
      RegisterStep(c, ws, 1, data, RegValue(ws[2]).value, parseF64);
      assert OperandAt(c, 2) in {NoOperand, Relative};
    }
  }

  /** The assembler panics only when a register token leaves nothing to
    * slice, or starts with a character wider than one byte. */
  lemma AsmPanics(ws: seq<string>, parseF64: string -> Option<real>)
    requires AsmWords(ws, parseF64).Panic?
    ensures RegValue(ws[1]).Panic? || (|ws| > 2 && RegValue(ws[2]).Panic?)
  {
    var c := ParseMnemonic(ws[0]).value;
    var z: Data := [0, 0, 0];
    assert Operands(c, ws, 0, 0, z, parseF64).Panic?;
    if RegValue(ws[1]).Done? {
      assert OperandAt(c, 0) == Register;
      RegisterStep(c, ws, 0, z, RegValue(ws[1]).value, parseF64);
      PanicFromSecond(c, ws, z[0 := RegValue(ws[1]).value], parseF64);
    }
  }

  /** The comma after a register and the brackets of a `mov` target are
    * dropped before the number is read. */
  lemma RegValueOf(v: U8)
    ensures RegValue(RegText(v)) == Done(v)
    ensures RegValue(RegText(v) + ",") == Done(v)
    ensures RegValue("[" + RegText(v) + "],") == Done(v)
  {
    DigitsOfNat(v);
    var n := NatToString(v);
    var t := RegText(v);
    assert t == "r" + n;
    forall i | 0 <= i < |n| ensures n[i] !in RegPunct {
      assert IsDigit(n[i]);
    }
    DeleteNone(n, RegPunct);
    DeleteNone("r", RegPunct);
    DeleteAppend("r", n, RegPunct);
    assert Delete(t, RegPunct) == t;
    assert Delete(",", RegPunct) == [];
    DeleteAppend(t, ",", RegPunct);
    assert Delete(t + ",", RegPunct) == t;
    assert Delete("[", RegPunct) == [];
    assert Delete("],", RegPunct) == [] by {
      assert "],"[1..] == ",";
    }
    DeleteAppend("[", t, RegPunct);
    DeleteAppend("[" + t, "],", RegPunct);
    assert Delete("[" + t + "],", RegPunct) == t;
    assert t[1..] == n;
    ParseU8Show(v);
  }

  /** A rendered integer holds no whitespace. */
  lemma IntTextNoSpace(x: int)
    ensures |IntToString(x)| >= 1 && NoSpace(IntToString(x))
  {
    var m := if x < 0 then -x else x;
    DigitsOfNat(m);
    var n := NatToString(m);
    assert forall i :: 0 <= i < |n| ==> !IsSpace(n[i]) by {
      forall i | 0 <= i < |n| ensures !IsSpace(n[i]) {
        assert IsDigit(n[i]);
      }
    }
    if x < 0 {
      assert IntToString(x) == "-" + n;
      assert forall i :: 1 <= i < |"-" + n| ==> ("-" + n)[i] == n[i - 1];
    }
  }

  /** Every token of a displayed instruction is non-empty and holds no
    * whitespace, so splitting the text gives the tokens back. */
  lemma ShowTokensWords(op: Op, showF64: real -> string, parseF64: string -> Option<real>)
    requires ImmTextRoundTrips(showF64, parseF64)
    ensures forall i :: 0 <= i < |ShowTokens(op, showF64)| ==> NoSpace(ShowTokens(op, showF64)[i])
    ensures Words(Show(op, showF64)) == ShowTokens(op, showF64)
  {
    var ts := ShowTokens(op, showF64);
    var rx, ry := RegText(op.data[0]), RegText(op.data[1]);
    assert NoSpace(rx + ",") by {
      assert forall i :: 0 <= i < |rx| ==> (rx + ",")[i] == rx[i];
    }
    assert NoSpace(ry + ",") by {
      assert forall i :: 0 <= i < |ry| ==> (ry + ",")[i] == ry[i];
    }
    assert NoSpace("[" + rx + "],") by {
      assert forall i :: 1 <= i < |rx| + 1 ==> ("[" + rx + "],")[i] == rx[i - 1];
    }
    IntTextNoSpace(AsI8(op.data[2]));
    assert forall i :: 0 <= i < |ts| ==> |ts[i]| >= 1 && NoSpace(ts[i]);
    WordsUnwords(ts);
  }

  /** One register operand read at its own position. */
  lemma RegisterStep(c: Opcode, ws: seq<string>, i: nat, data: Data, v: U8, parseF64: string -> Option<real>)
    requires i < 3 && OperandAt(c, i) == Register
    requires i + 1 < |ws| && RegValue(ws[i + 1]) == Done(v)
    ensures Operands(c, ws, i, i, data, parseF64) == Operands(c, ws, i + 1, i + 1, data[i := v], parseF64)
  {
  }

  /** The jump offset, the last operand, read at the third position. */
  lemma {:induction false} RelativeStep(c: Opcode, ws: seq<string>, data: Data, v: I8, parseF64: string -> Option<real>)
    requires OperandAt(c, 2) == Relative
    requires 3 < |ws| && ParseI8(ws[3]) == Some(v)
    ensures Operands(c, ws, 2, 2, data, parseF64).Done?
    ensures Operands(c, ws, 2, 2, data, parseF64).value == data[2 := I8Byte(v)]
  {
    var d: Data := data[2 := I8Byte(v)];
    assert Operands(c, ws, 3, 3, d, parseF64) == Done(d);
  }

  /** The tokens of an instruction with two register operands. */
  lemma TwoRegisterWords(c: Opcode, ws: seq<string>, a: U8, b: U8, parseF64: string -> Option<real>)
    requires c in {Add, Sub, Mul, Div, Pow, IndirectCopy} && |ws| == 3 && ParseMnemonic(ws[0]) == Some(c)
    requires RegValue(ws[1]) == Done(a) && RegValue(ws[2]) == Done(b)
    ensures AsmWords(ws, parseF64) == Done(Op(c, [a, b, 0]))
  {
    var z: Data := [0, 0, 0];
    var z1: Data := z[0 := a];
    var z2: Data := z1[1 := b];
    RegisterStep(c, ws, 0, z, a, parseF64);
    RegisterStep(c, ws, 1, z1, b, parseF64);
    assert Operands(c, ws, 3, 2, z2, parseF64) == Done(z2);
    assert z2 == [a, b, 0];
  }

  /** Assembling the tokens of an instruction with two register operands. */
  lemma AsmTwoRegisters(op: Op, showF64: real -> string, parseF64: string -> Option<real>)
    requires op.code in {Add, Sub, Mul, Div, Pow, IndirectCopy} && op.data[2] == 0
    ensures AsmWords(ShowTokens(op, showF64), parseF64) == Done(op)
  {
    var ws, d := ShowTokens(op, showF64), op.data;
    var m, rx, ry := Mnemonic(op.code), RegText(d[0]), RegText(d[1]);
    MnemonicRoundTrip(op.code);
    RegValueOf(d[0]);
    RegValueOf(d[1]);
    var tx := if op.code == IndirectCopy then "[" + rx + "]," else rx + ",";
    assert ws == [m, tx, ry];
    assert RegValue(tx) == Done(d[0]);
    TwoRegisterWords(op.code, [m, tx, ry], d[0], d[1], parseF64);
    assert [d[0], d[1], 0] == d;
  }

  /** The tokens of an instruction with one register operand. */
  lemma OneRegisterWords(c: Opcode, ws: seq<string>, a: U8, parseF64: string -> Option<real>)
    requires c in {Abs, Neg, Log} && |ws| == 2 && ParseMnemonic(ws[0]) == Some(c)
    requires RegValue(ws[1]) == Done(a)
    ensures AsmWords(ws, parseF64) == Done(Op(c, [a, 0, 0]))
  {
    var z: Data := [0, 0, 0];
    var z1: Data := z[0 := a];
    RegisterStep(c, ws, 0, z, a, parseF64);
    assert Operands(c, ws, 2, 1, z1, parseF64) == Done(z1);
    assert z1 == [a, 0, 0];
  }

  /** Assembling the tokens of an instruction with one register operand. */
  lemma AsmOneRegister(op: Op, showF64: real -> string, parseF64: string -> Option<real>)
    requires op.code in {Abs, Neg, Log} && op.data[1] == 0 && op.data[2] == 0
    ensures AsmWords(ShowTokens(op, showF64), parseF64) == Done(op)
  {
    var ws, d := ShowTokens(op, showF64), op.data;
    var m, rx := Mnemonic(op.code), RegText(d[0]);
    MnemonicRoundTrip(op.code);
    RegValueOf(d[0]);
    assert ws == [m, rx];
    OneRegisterWords(op.code, [m, rx], d[0], parseF64);
    assert [d[0], 0, 0] == d;
  }

  /** Assembling the tokens of a `load`: the fixed-point value is stored as
    * the bytes it was made of. */
  lemma AsmLoad(op: Op, showF64: real -> string, parseF64: string -> Option<real>)
    requires op.code == Load
    requires ImmTextRoundTrips(showF64, parseF64)
    ensures AsmWords(ShowTokens(op, showF64), parseF64) == Done(op)
  {
    var ws, d := ShowTokens(op, showF64), op.data;
    MnemonicRoundTrip(Load);
    RegValueOf(d[0]);
    assert RegValue(ws[1]) == Done(d[0]);
    assert parseF64(ws[2]) == Some(FixedPoint(d[1], d[2]));
    ImmBytesFixedPoint(d[1], d[2]);
    LoadWords(ws, d[0], parseF64);
    assert [d[0], d[1], d[2]] == d;
  }

  /** The tokens of a `load`: a register, then an immediate whose two bytes
    * fill the rest; a missing or unreadable immediate is an error. */
  lemma LoadWords(ws: seq<string>, a: U8, parseF64: string -> Option<real>)
    requires |ws| >= 2 && ParseMnemonic(ws[0]) == Some(Load) && RegValue(ws[1]) == Done(a)
    ensures |ws| == 2 ==> AsmWords(ws, parseF64) == Error("missing immediate for Load")
    ensures |ws| > 2 && parseF64(ws[2]).None? ==> AsmWords(ws, parseF64) == Error(FloatErrorText(ws[2]))
    ensures |ws| > 2 && parseF64(ws[2]).Some? ==>
      var b := ImmBytes(parseF64(ws[2]).value); AsmWords(ws, parseF64) == Done(Op(Load, [a, b.0, b.1]))
  {
    var z: Data := [0, 0, 0];
    var z1: Data := z[0 := a];
    RegisterStep(Load, ws, 0, z, a, parseF64);
    assert OperandAt(Load, 1) == Immediate;
    if |ws| > 2 && parseF64(ws[2]).Some? {
      var b := ImmBytes(parseF64(ws[2]).value);
      assert z1[1 := b.0][2 := b.1] == [a, b.0, b.1];
    }
  }

  /** Assembling the tokens of a conditional jump: the offset is read back
    * as an `i8` and stored as its byte. */
  lemma AsmJump(op: Op, showF64: real -> string, parseF64: string -> Option<real>)
    requires op.code in {Jlt, Jle, Jeq}
    ensures AsmWords(ShowTokens(op, showF64), parseF64) == Done(op)
  {
    var d: seq<U8> := op.data;
    JumpTokens(op, showF64);
    JumpWords(op.code, ShowTokens(op, showF64), d[0], d[1], AsI8(d[2]), parseF64);
    assert I8Byte(AsI8(d[2])) == d[2] by { ByteRoundTrip(d[2]); }
    assert d == [d[0], d[1], d[2]];
  }

  /** Each displayed token of a jump reads back as its part. */
  lemma JumpTokens(op: Op, showF64: real -> string)
    requires op.code in {Jlt, Jle, Jeq}
    ensures var ws := ShowTokens(op, showF64);
      |ws| == 4 && ParseMnemonic(ws[0]) == Some(op.code) && RegValue(ws[1]) == Done(op.data[0]) &&
      RegValue(ws[2]) == Done(op.data[1]) && ParseI8(ws[3]) == Some(AsI8(op.data[2]))
  {
    var d: seq<U8> := op.data;
    var m, t1, t2, t3 := Mnemonic(op.code), RegText(d[0]) + ",", RegText(d[1]) + ",", IntToString(AsI8(d[2]));
    assert ShowTokens(op, showF64) == [m, t1, t2, t3];
    assert ParseMnemonic(m) == Some(op.code) by { MnemonicRoundTrip(op.code); }
    assert RegValue(t1) == Done(d[0]) by { RegValueOf(d[0]); }
    assert RegValue(t2) == Done(d[1]) by { RegValueOf(d[1]); }
    assert ParseI8(t3) == Some(AsI8(d[2])) by { ParseI8Show(AsI8(d[2])); }
  }

  /** The tokens of a jump: two registers and an `i8` offset. */
  lemma JumpWords(c: Opcode, ws: seq<string>, a: U8, b: U8, v: I8, parseF64: string -> Option<real>)
    requires c in {Jlt, Jle, Jeq} && |ws| == 4 && ParseMnemonic(ws[0]) == Some(c)
    requires RegValue(ws[1]) == Done(a) && RegValue(ws[2]) == Done(b) && ParseI8(ws[3]) == Some(v)
    ensures AsmWords(ws, parseF64) == Done(Op(c, [a, b, I8Byte(v)]))
  {
    var z: Data := [0, 0, 0];
    var z1: Data := z[0 := a];
    var z2: Data := z1[1 := b];
    RegisterStep(c, ws, 0, z, a, parseF64);
    RegisterStep(c, ws, 1, z1, b, parseF64);
    RelativeStep(c, ws, z2, v, parseF64);
    assert z2[2 := I8Byte(v)] == [a, b, I8Byte(v)];
  }

  /** Assembling the displayed text of an instruction whose unused bytes
    * are zero gives the instruction back, when `f64` values print as
    * tokens that parse back to themselves. */
  lemma AsmShow(op: Op, showF64: real -> string, parseF64: string -> Option<real>)
    requires Canonical(op)
    requires ImmTextRoundTrips(showF64, parseF64)
    ensures AsmLine(Show(op, showF64), parseF64) == Done(op)
  {
    ShowTokensWords(op, showF64, parseF64);
    match op.code {
      case Nop =>
        MnemonicRoundTrip(Nop);
        assert op.data == [0, 0, 0];
      case Add | Sub | Mul | Div | Pow | IndirectCopy =>
        AsmTwoRegisters(op, showF64, parseF64);
      case Abs | Neg | Log =>
        AsmOneRegister(op, showF64, parseF64);
      case Load =>
        AsmLoad(op, showF64, parseF64);
      case Jlt | Jle | Jeq =>
        AsmJump(op, showF64, parseF64);
    }
  }

  /** A program as text: each instruction's `Display` followed by a
    * newline. */
  function Listing(code: seq<Op>, showF64: real -> string): string {
    JoinLines(seq(|code|, i requires 0 <= i < |code| => Show(code[i], showF64)))
  }

  /** Assembling the listing of a program whose unused bytes are zero gives
    * the program back. */
  lemma AsmListing(code: seq<Op>, showF64: real -> string, parseF64: string -> Option<real>)
    requires forall i :: 0 <= i < |code| ==> Canonical(code[i])
    requires ImmTextRoundTrips(showF64, parseF64)
    ensures AsmLines(Lines(Listing(code, showF64)), parseF64) == Done(code)
  {
    var ls := seq(|code|, i requires 0 <= i < |code| => Show(code[i], showF64));
    forall i | 0 <= i < |ls|
      ensures IsLine(ls[i]) && AsmLine(ls[i], parseF64) == Done(code[i])
    {
      ShowTokensWords(code[i], showF64, parseF64);
      UnwordsIsLine(ShowTokens(code[i], showF64));
      AsmShow(code[i], showF64, parseF64);
    }
    LinesJoinLines(ls);
    var r := AsmLines(ls, parseF64);
    assert r.Done?;
    assert r.value == code;
  }

  /** A `load` takes its value from its immediate token: "load r0, 1.5"
    * stores the bytes 128 and 1, and a line cut short is an error. */
  lemma LoadExamples(parseF64: string -> Option<real>)
    requires parseF64("1.5") == Some(1.5)
    ensures AsmWords(["load", "r0,", "1.5"], parseF64) == Done(Op(Load, [0, 128, 1]))
    ensures AsmWords(["load", "r0,"], parseF64) == Error("missing immediate for Load")
  {
    var ws: seq<string> := ["load", "r0,", "1.5"];
    assert ParseMnemonic(ws[0]) == Some(Load) by {
      MnemonicRoundTrip(Load);
      assert Mnemonic(Load) == ws[0];
    }
    assert RegValue(ws[1]) == Done(0) by {
      RegValueOf(0);
      assert NatToString(0) == "0";
      assert RegText(0) + "," == ws[1];
    }
    assert ImmBytes(1.5) == (128, 1) by {
      assert VmExec.Trunc(1.5) == 1;
      assert (1.5).Floor == 1;
    }
    LoadWords(ws, 0, parseF64);
    LoadWords(ws[..2], 0, parseF64);
    assert ws[..2] == ["load", "r0,"];
  }

  /** A negative jump offset is stored as its two's-complement byte. */
  lemma JumpExample(parseF64: string -> Option<real>, ws: seq<string>)
    requires ws == ["jlt", "r1,", "r2,", "-3"]
    ensures AsmWords(ws, parseF64) == Done(Op(Jlt, [1, 2, 253]))
  {
    var op := Op(Jlt, [1, 2, 253]);
    var showF64 := (x: real) => "";
    AsmJump(op, showF64, parseF64);
    assert AsI8(253) == -3;
    assert IntToString(-3) == "-3" by { assert NatToString(3) == "3"; }
    assert RegText(1) + "," == "r1," by { assert NatToString(1) == "1"; }
    assert RegText(2) + "," == "r2," by { assert NatToString(2) == "2"; }
    assert ShowTokens(op, showF64) == [Mnemonic(Jlt), RegText(1) + ",", RegText(2) + ",", IntToString(AsI8(253))];
  }
}

// The disassembler of src/evaluators/lgp/vm/disasm.rs: one line per
// instruction, each followed by a newline, in the text format that the
// assembler of src/evaluators/lgp/vm/asm.rs reads back.
module VmDisasm {
  import opened Common
  import opened Text
  import opened VmOpcode
  import opened VmAsm

  /** A register token: "r" and the number, with a comma unless it is the
    * last operand. */
  function RegToken(v: U8, last: bool): (t: string)
    ensures |t| >= 1 && NoSpace(t)
  {
    DigitsOfNat(v);
    "r" + NatToString(v) + (if last then "" else ",")
  }

  /** The tokens of an instruction's text: the mnemonic, then its
    * operands. `showImm` renders an `f32`. */
  function Tokens(op: Op, showImm: real -> string): seq<string> {
    [Mnemonic(op.code)] +
    match op.operands
    case Reg2Cmp(ra, rb) => [RegToken(ra, false), RegToken(rb, true)]
    case Reg2Assign(ri, ra) => [RegToken(ri, false), RegToken(ra, true)]
    case Reg3Assign(ri, ra, rb) => [RegToken(ri, false), RegToken(ra, false), RegToken(rb, true)]
    case ImmAssign(ri, imm) => [RegToken(ri, false), showImm(imm)]
  }

  /** The text of one instruction, tokens separated by single spaces, as in
    * "add r0, r1, r2" and "iflt r1, r2". */
  function Show(op: Op, showImm: real -> string): string {
    Unwords(Tokens(op, showImm))
  }

  /** `lgp_disasm`: each instruction's text followed by a newline. */
  function Disasm(code: seq<Op>, showImm: real -> string): string {
    JoinLines(ShowAll(code, showImm))
  }

  function ShowAll(code: seq<Op>, showImm: real -> string): (ls: seq<string>)
    ensures |ls| == |code|
    ensures forall i :: 0 <= i < |code| ==> ls[i] == Show(code[i], showImm)
  {
    seq(|code|, i requires 0 <= i < |code| => Show(code[i], showImm))
  }

  lemma RegTokenValue(v: U8, last: bool)
    ensures RegValue(RegToken(v, last)) == Done(v)
  {
    DigitsOfNat(v);
    var n := NatToString(v);
    DeleteNone(n, {','});
    DeleteNone("r", {','});
    DeleteAppend("r", n, {','});
    var d := Delete(RegToken(v, last), {','});
    if last {
      assert RegToken(v, last) == "r" + n;
    } else {
      DeleteAppend("r" + n, ",", {','});
      assert Delete(",", {','}) == [];
    }
    assert d == "r" + n;
    assert d[1..] == n;
    ParseU8Show(v);
  }

  lemma TokensWellFormed(op: Op, showImm: real -> string, parseImm: string -> Option<real>)
    requires ImmTextRoundTrips(showImm, parseImm)
    ensures forall i :: 0 <= i < |Tokens(op, showImm)| ==>
      |Tokens(op, showImm)[i]| >= 1 && NoSpace(Tokens(op, showImm)[i])
  {
    var ts := Tokens(op, showImm);
    assert NoSpace(Mnemonic(op.code));
  }

  /** Assembling an instruction's tokens gives the instruction back. */
  lemma AsmTokens(op: Op, showImm: real -> string, parseImm: string -> Option<real>)
    requires WellShaped(op)
    requires ImmTextRoundTrips(showImm, parseImm)
    ensures AsmWords(Tokens(op, showImm), parseImm) == Done(op)
  {
    MnemonicRoundTrip(op.code);
    match op.operands
    case Reg2Cmp(ra, rb) =>
      RegTokenValue(ra, false);
      RegTokenValue(rb, true);
    case Reg2Assign(ri, ra) =>
      RegTokenValue(ri, false);
      RegTokenValue(ra, true);
    case Reg3Assign(ri, ra, rb) =>
      RegTokenValue(ri, false);
      RegTokenValue(ra, false);
      RegTokenValue(rb, true);
    case ImmAssign(ri, imm) =>
      RegTokenValue(ri, false);
  }

  /** Assembling an instruction's text gives the instruction back. */
  lemma AsmShow(op: Op, showImm: real -> string, parseImm: string -> Option<real>)
    requires WellShaped(op)
    requires ImmTextRoundTrips(showImm, parseImm)
    ensures AsmOp(Show(op, showImm), parseImm) == Done(op)
    ensures IsLine(Show(op, showImm))
  {
    TokensWellFormed(op, showImm, parseImm);
    WordsUnwords(Tokens(op, showImm));
    AsmTokens(op, showImm, parseImm);
    UnwordsIsLine(Tokens(op, showImm));
  }

  lemma {:induction false} AsmLinesShowAll(code: seq<Op>, showImm: real -> string, parseImm: string -> Option<real>)
    requires forall i :: 0 <= i < |code| ==> WellShaped(code[i])
    requires ImmTextRoundTrips(showImm, parseImm)
    ensures AsmLines(ShowAll(code, showImm), parseImm) == Done(code)
  {
    if code != [] {
      var ls := ShowAll(code, showImm);
      assert AsmOp(ls[0], parseImm) == Done(code[0]) by {
        AsmShow(code[0], showImm, parseImm);
      }
      assert ls[1..] == ShowAll(code[1..], showImm);
      AsmLinesShowAll(code[1..], showImm, parseImm);
      AsmLinesUnfold(ls, parseImm);
      assert [code[0]] + code[1..] == code;
    }
  }

  /** Disassembling and assembling again gives back every well-shaped
    * program, and the text holds one newline per instruction. */
  lemma AsmDisasm(code: seq<Op>, showImm: real -> string, parseImm: string -> Option<real>)
    requires forall i :: 0 <= i < |code| ==> WellShaped(code[i])
    requires ImmTextRoundTrips(showImm, parseImm)
    ensures Asm(Disasm(code, showImm), parseImm) == Done(code)
    ensures multiset(Disasm(code, showImm))['\n'] == |code|
  {
    var ls := ShowAll(code, showImm);
    forall i | 0 <= i < |ls|
      ensures IsLine(ls[i])
    {
      AsmShow(code[i], showImm, parseImm);
    }
    LinesJoinLines(ls);
    JoinLinesCount(ls);
    AsmLinesShowAll(code, showImm, parseImm);
  }

  /** `lgp_disasm` as written: each instruction's text and a newline are
    * appended to the program text in turn. */
  method Disassemble(code: seq<Op>, showImm: real -> string) returns (prog: string)
    ensures prog == Disasm(code, showImm)
  {
    ghost var ls := ShowAll(code, showImm);
    prog := "";
    var i := 0;
    assert ls[0..] == ls;
    while i < |code|
      invariant 0 <= i <= |code|
      invariant prog + JoinLines(ls[i..]) == JoinLines(ls)
    {
      var line := Show(code[i], showImm);
      JoinLinesFrom(ls, i);
      assert (prog + line + "\n") + JoinLines(ls[i + 1..]) == prog + JoinLines(ls[i..]);
      prog := prog + line + "\n";
      i := i + 1;
    }
    assert ls[i..] == [];
    assert prog + "" == prog;
  }

  /** The text of an addition, as the optimizer's test programs write it,
    * and the empty text of an empty program. */
  lemma ShowExample(showImm: real -> string)
    ensures Disasm([Op(Add, Reg3Assign(0, 1, 2))], showImm) == "add r0, r1, r2\n"
    ensures Disasm([], showImm) == ""
  {
    assert NatToString(0) == "0";
    assert NatToString(1) == "1";
    assert NatToString(2) == "2";
    var op := Op(Add, Reg3Assign(0, 1, 2));
    assert RegToken(0, false) == "r0,";
    assert RegToken(1, false) == "r1,";
    assert RegToken(2, true) == "r2";
    var ts := Tokens(op, showImm);
    assert ts == ["add", "r0,", "r1,", "r2"];
    assert Unwords(ts[3..]) == "r2";
    assert Unwords(ts[2..]) == "r1, r2";
    assert Unwords(ts[1..]) == "r0, r1, r2";
    assert Show(op, showImm) == "add r0, r1, r2";
    var ls := ShowAll([op], showImm);
    assert ls == ["add r0, r1, r2"];
    assert JoinLines(ls[1..]) == "";
    assert JoinLines(ls) == "add r0, r1, r2" + "\n" + "";
  }
}

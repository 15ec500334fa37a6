// The byte-coded instruction of src/evaluators/lgp/vm/op.rs: an opcode and
// three data bytes, what each byte position means for an opcode, how many
// of them are used, a distance between two instructions and the text an
// instruction displays as.
module VmOp {
  import opened Common
  import opened Text

  datatype Opcode = Nop | Add | Sub | Mul | Div | Abs | Neg | Pow | Log | Load | IndirectCopy | Jlt | Jle | Jeq

  /** What a data byte holds. */
  datatype Operand = NoOperand | Register | Immediate | Relative

  /** The three data bytes of an instruction. */
  type Data = s: seq<U8> | |s| == 3 witness [0, 0, 0]

  datatype Op = Op(code: Opcode, data: Data)

  /** `Opcode::operand`: the meaning of data byte `idx`. */
  function OperandAt(c: Opcode, idx: nat): Operand {
    match c
    case Nop => NoOperand
    case Add | Sub | Mul | Div | IndirectCopy | Pow => if idx <= 1 then Register else NoOperand
    case Abs | Neg | Log => if idx == 0 then Register else NoOperand
    case Load => if idx == 0 then Register else Immediate
    case Jlt | Jle | Jeq => if idx == 2 then Relative else Register
  }

  /** The used byte positions of every opcode come first: once a position
    * holds no operand, no later one does. */
  lemma OperandsArePrefix(c: Opcode, i: nat, j: nat)
    requires i <= j && OperandAt(c, i) == NoOperand
    ensures OperandAt(c, j) == NoOperand
  {
  }

  /** How many data bytes each opcode uses. */
  function NumOperandsOf(c: Opcode): nat {
    match c
    case Nop => 0
    case Abs | Neg | Log => 1
    case Add | Sub | Mul | Div | Pow | IndirectCopy => 2
    case Load | Jlt | Jle | Jeq => 3
  }

  /** The count is the first position of the operand table without an
    * operand, or 3 when all three are used. */
  lemma NumOperandsTable(c: Opcode)
    ensures forall i :: 0 <= i < NumOperandsOf(c) ==> OperandAt(c, i) != NoOperand
    ensures NumOperandsOf(c) < 3 ==> OperandAt(c, NumOperandsOf(c)) == NoOperand
    ensures NumOperandsOf(c) <= 3
  {
  }

  /** `Op::num_operands`: scans the positions for the first one without an
    * operand. */
  method NumOperands(op: Op) returns (n: nat)
    ensures n == NumOperandsOf(op.code)
  {
    NumOperandsTable(op.code);
    var i := 0;
    while i < |op.data|
      invariant 0 <= i <= 3
      invariant i <= NumOperandsOf(op.code)
    {
      if OperandAt(op.code, i) == NoOperand {
        return i;
      }
      i := i + 1;
    }
    return |op.data|;
  }

  function AbsDiff(a: int, b: int): nat {
    if a >= b then a - b else b - a
  }

  /** The distance as a sum over the data bytes. */
  function ByteDist(a: seq<U8>, b: seq<U8>): nat
    requires |a| == |b|
  {
    if a == [] then 0 else AbsDiff(a[0], b[0]) + ByteDist(a[1..], b[1..])
  }

  function DistOf(a: Op, b: Op): nat
  {
    (if a.code != b.code then 100 else 0) + ByteDist(a.data, b.data)
  }

  /** `Op::dist`: 100 for differing opcodes plus the byte-wise absolute
    * differences. The `f64` sum is of small integers, so it is exact. */
  method Dist(a: Op, b: Op) returns (d: nat)
    ensures d == DistOf(a, b)
  {
    d := 0;
    if a.code != b.code {
      d := d + 100;
    }
    var i := 0;
    while i < 3
      invariant 0 <= i <= 3
      invariant d + ByteDist(a.data[i..], b.data[i..]) == DistOf(a, b)
    {
      assert a.data[i..][1..] == a.data[i + 1..];
      assert b.data[i..][1..] == b.data[i + 1..];
      d := d + AbsDiff(a.data[i], b.data[i]);
      i := i + 1;
    }
  }

  lemma {:induction false} ByteDistFacts(a: seq<U8>, b: seq<U8>)
    requires |a| == |b|
    ensures ByteDist(a, b) == ByteDist(b, a)
    ensures ByteDist(a, b) == 0 <==> a == b
    ensures ByteDist(a, b) <= 255 * |a|
  {
    if a != [] {
      ByteDistFacts(a[1..], b[1..]);
      if a[0] == b[0] && a[1..] == b[1..] {
        assert a == [a[0]] + a[1..] && b == [b[0]] + b[1..];
      }
    }
  }

  /** The distance is symmetric, zero exactly on equal instructions, and at
    * most 100 + 3 * 255. */
  lemma DistFacts(a: Op, b: Op)
    ensures DistOf(a, b) == DistOf(b, a)
    ensures DistOf(a, b) == 0 <==> a == b
    ensures DistOf(a, b) <= 100 + 3 * 255
    ensures a.code != b.code ==> DistOf(a, b) >= 100
  {
    ByteDistFacts(a.data, b.data);
  }

  /** The 8.8 fixed-point value of a `Load` immediate: the high byte plus
    * the low byte over 256. */
  function FixedPoint(lo: U8, hi: U8): (x: real)
    ensures hi as real <= x < hi as real + 1.0
  {
    hi as real + lo as real / 256.0
  }

  /** The mnemonic `Display` writes for each opcode. */
  function Mnemonic(c: Opcode): (m: string)
    ensures |m| >= 2 && NoSpace(m)
  {
    match c
    case Nop => "nop"
    case Add => "add"
    case Sub => "sub"
    case Mul => "mul"
    case Div => "div"
    case Abs => "abs"
    case Neg => "neg"
    case Pow => "pow"
    case Log => "ln"
    case Load => "load"
    case IndirectCopy => "mov"
    case Jlt => "jlt"
    case Jle => "jle"
    case Jeq => "jeq"
  }

  /** A register as "r" and its number. */
  function RegText(v: U8): (t: string)
    ensures |t| >= 2 && t[0] == 'r' && NoSpace(t)
  {
    DigitsOfNat(v);
    "r" + NatToString(v)
  }

  /** The space-separated tokens of `Display for Op`: the mnemonic, then the
    * used operands, every one but the last followed by a comma. The target
    * of `mov` is bracketed, a `Load` shows its fixed-point value through
    * `showF64` (the `{}` rendering of an `f64`), and a jump shows its
    * offset as an `i8`. */
  function ShowTokens(op: Op, showF64: real -> string): seq<string> {
    var m, rx, ry := Mnemonic(op.code), RegText(op.data[0]), RegText(op.data[1]);
    match op.code
    case Nop => [m]
    case Add | Sub | Mul | Div | Pow => [m, rx + ",", ry]
    case Abs | Neg | Log => [m, rx]
    case Load => [m, rx + ",", showF64(FixedPoint(op.data[1], op.data[2]))]
    case IndirectCopy => [m, "[" + rx + "],", ry]
    case Jlt | Jle | Jeq => [m, rx + ",", ry + ",", IntToString(AsI8(op.data[2]))]
  }

  /** `Display for Op`. */
  function Show(op: Op, showF64: real -> string): string {
    Unwords(ShowTokens(op, showF64))
  }
}

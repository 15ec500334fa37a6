// Effective-code extraction of src/evaluators/lgp/vm/optimize.rs: a
// backward liveness pass that keeps an instruction when it writes a register
// still needed later, and keeps a branch when the instruction it guards was
// kept. `Pass`, `StepBack` and `Run` define the pass on values; the method
// `Optimize` is the source's loop over a table of flags, proved equal to it.
module VmOptimize {
  import opened Common
  import opened VmOpcode

  /** Number of liveness flags the source allocates: `u8::MAX as usize`. */
  const TableAsWritten: nat := 255

  /** One flag per possible `u8` register. */
  const TableCorrected: nat := 256

  /** The state of the backward pass after the instructions seen so far:
    * live registers, whether the instruction after this point was kept, the
    * registers it writes, and the kept instructions in program order. */
  datatype Pass = Pass(live: set<U8>, nextEffective: bool, nextOut: seq<U8>, kept: seq<Op>)

  predicate InTable(regs: seq<U8>, size: nat) {
    forall i :: 0 <= i < |regs| ==> regs[i] < size
  }

  /** The registers named in `regs`. */
  function RegSet(regs: seq<U8>): (r: set<U8>)
    ensures forall x :: x in r <==> x in regs
  {
    if regs == [] then {} else {regs[0]} + RegSet(regs[1..])
  }

  /** Some register of `regs` is live. */
  predicate AnyLive(regs: seq<U8>, live: set<U8>) {
    RegSet(regs) * live != {}
  }

  /** Processing one instruction backwards; None when it indexes a register
    * outside the flag table (the source panics). */
  function StepBack(p: Pass, op: Op, size: nat): Option<Pass> {
    var outs := OutputRegs(op.operands);
    var ins := InputRegs(op.operands);
    var writesLive := AnyLive(outs, p.live);
    var branchFires := p.nextEffective && IsBranch(op.code);
    var effective := writesLive || branchFires;
    if !InTable(outs, size) then None
    else if branchFires && !InTable(p.nextOut, size) then None
    else if effective && !InTable(ins, size) then None
    else
      var live1 := p.live - RegSet(outs);
      var live2 := if branchFires then live1 + RegSet(p.nextOut) else live1;
      var live3 := if effective then live2 + RegSet(ins) else live2;
      Some(Pass(live3, effective, outs, if effective then [op] + p.kept else p.kept))
  }

  /** The pass over `code`, from its last instruction to its first. */
  function Run(code: seq<Op>, p: Pass, size: nat): Option<Pass>
    decreases |code|
  {
    if code == [] then Some(p)
    else
      match StepBack(p, code[|code| - 1], size)
      case None => None
      case Some(q) => Run(code[..|code| - 1], q, size)
  }

  function Start(outputRegs: seq<U8>): Pass {
    Pass(RegSet(outputRegs), false, [], [])
  }

  /** `LgpOptimizer::optimize` with a flag table of `size` entries: the kept
    * instructions, or None where the source panics. */
  function OptimizeSpec(code: seq<Op>, outputRegs: seq<U8>, size: nat): Option<seq<Op>> {
    if !InTable(outputRegs, size) then None
    else
      match Run(code, Start(outputRegs), size)
      case None => None
      case Some(p) => Some(p.kept)
  }

  function Reverse<T>(s: seq<T>): (r: seq<T>)
    ensures |r| == |s|
  {
    if s == [] then [] else [s[|s| - 1]] + Reverse(s[..|s| - 1])
  }

  /** Sets the flags of `regs` to true. */
  method MarkLive(eff: array<bool>, regs: seq<U8>, ghost live: set<U8>) returns (ok: bool)
    requires forall k: U8 :: k < eff.Length ==> (eff[k] <==> k in live)
    requires forall k :: k in live ==> k < eff.Length
    modifies eff
    ensures ok == InTable(regs, eff.Length)
    ensures ok ==> forall k: U8 :: k < eff.Length ==> (eff[k] <==> k in live + RegSet(regs))
  {
    for j := 0 to |regs|
      invariant InTable(regs[..j], eff.Length)
      invariant forall k: U8 :: k < eff.Length ==> (eff[k] <==> k in live + RegSet(regs[..j]))
    {
      if regs[j] >= eff.Length {
        assert !InTable(regs, eff.Length);
        return false;
      }
      eff[regs[j]] := true;
      assert regs[..j + 1] == regs[..j] + [regs[j]];
    }
    assert regs[..|regs|] == regs;
    return true;
  }

  /** Clears the flags of `outs`, reporting whether any of them was set. */
  method ClearOutputs(eff: array<bool>, outs: seq<U8>, ghost live: set<U8>) returns (ok: bool, effective: bool)
    requires forall k: U8 :: k < eff.Length ==> (eff[k] <==> k in live)
    requires forall k :: k in live ==> k < eff.Length
    modifies eff
    ensures ok == InTable(outs, eff.Length)
    ensures ok ==> effective == AnyLive(outs, live)
    ensures ok ==> forall k: U8 :: k < eff.Length ==> (eff[k] <==> k in live - RegSet(outs))
  {
    effective := false;
    for j := 0 to |outs|
      invariant InTable(outs[..j], eff.Length)
      invariant effective == AnyLive(outs[..j], live)
      invariant forall k: U8 :: k < eff.Length ==> (eff[k] <==> k in live - RegSet(outs[..j]))
    {
      if outs[j] >= eff.Length {
        assert !InTable(outs, eff.Length);
        return false, effective;
      }
      if eff[outs[j]] {
        effective := true;
        eff[outs[j]] := false;
      }
      assert outs[..j + 1] == outs[..j] + [outs[j]];
      assert RegSet(outs[..j + 1]) == RegSet(outs[..j]) + {outs[j]};
    }
    assert outs[..|outs|] == outs;
    return true, effective;
  }

  /** The body of `optimize`'s loop for instruction `op`, over the flag
    * table: it does what `StepBack` does to the pass state `p`. */
  method BackStep(effRegs: array<bool>, op: Op, nextEffective: bool, nextOutputRegs: seq<U8>, effCode: seq<Op>, ghost p: Pass)
    returns (isEffective: bool, outs: seq<U8>, effCode': seq<Op>)
    requires effRegs.Length == TableCorrected
    requires p.nextEffective == nextEffective && p.nextOut == nextOutputRegs && p.kept == Reverse(effCode)
    requires forall k: U8 :: k < effRegs.Length ==> (effRegs[k] <==> k in p.live)
    modifies effRegs
    ensures StepBack(p, op, TableCorrected).Some?
    ensures var q := StepBack(p, op, TableCorrected).value;
      q.nextEffective == isEffective && q.nextOut == outs && q.kept == Reverse(effCode') &&
      forall k: U8 :: k < effRegs.Length ==> (effRegs[k] <==> k in q.live)
  {
    outs := OutputRegs(op.operands);
    var ok;
    ok, isEffective := ClearOutputs(effRegs, outs, p.live);
    assert ok;
    var branchFires := nextEffective && IsBranch(op.code);
    ghost var live2 := p.live - RegSet(outs);
    if branchFires {
      isEffective := true;
      ok := MarkLive(effRegs, nextOutputRegs, live2);
      assert ok;
      live2 := live2 + RegSet(nextOutputRegs);
    }
    effCode' := effCode;
    if isEffective {
      effCode' := effCode + [op];
      assert effCode'[..|effCode|] == effCode;
      ok := MarkLive(effRegs, InputRegs(op.operands), live2);
      assert ok;
    }
  }

  /** `LgpOptimizer::optimize` over its fields `code` and `output_regs`, with
    * one flag per `u8` register. */
  method Optimize(code: seq<Op>, outputRegs: seq<U8>) returns (effective: seq<Op>)
    ensures OptimizeSpec(code, outputRegs, TableCorrected) == Some(effective)
  {
    var effRegs := new bool[TableCorrected](_ => false);
    var ok := MarkLive(effRegs, outputRegs, {});
    assert ok;
    assert forall k: U8 :: k < effRegs.Length ==> (effRegs[k] <==> k in Start(outputRegs).live);
    var effCode: seq<Op> := [];
    var nextEffective := false;
    var nextOutputRegs: seq<U8> := [];
    ghost var p := Start(outputRegs);
    var i := |code|;
    assert code[..i] == code;
    while i > 0
      invariant 0 <= i <= |code|
      invariant Run(code, Start(outputRegs), TableCorrected) == Run(code[..i], p, TableCorrected)
      invariant p.nextEffective == nextEffective && p.nextOut == nextOutputRegs
      invariant p.kept == Reverse(effCode)
      invariant forall k: U8 :: k < effRegs.Length ==> (effRegs[k] <==> k in p.live)
      invariant forall k :: k in p.live ==> k < effRegs.Length
    {
      var op := code[i - 1];
      assert code[..i][..i - 1] == code[..i - 1];
      nextEffective, nextOutputRegs, effCode := BackStep(effRegs, op, nextEffective, nextOutputRegs, effCode, p);
      p := StepBack(p, op, TableCorrected).value;
      i := i - 1;
    }
    assert code[..0] == [];
    effective := Reverse(effCode);
  }

  /** `a` is `b` with some elements dropped, order kept. */
  predicate IsSubseq<T(==)>(a: seq<T>, b: seq<T>)
    decreases |b|
  {
    if a == [] then true
    else if b == [] then false
    else (a[0] == b[0] && IsSubseq(a[1..], b[1..])) || IsSubseq(a, b[1..])
  }

  lemma {:induction false} SubseqPrepend<T>(a: seq<T>, b: seq<T>, c: seq<T>)
    requires IsSubseq(a, b)
    ensures IsSubseq(a, c + b)
    decreases |c|
  {
    if c != [] {
      SubseqPrepend(a, b, c[1..]);
      assert (c + b)[1..] == c[1..] + b;
    } else {
      assert c + b == b;
    }
  }

  lemma {:induction false} SubseqLength<T>(a: seq<T>, b: seq<T>)
    requires IsSubseq(a, b)
    ensures |a| <= |b|
    decreases |b|
  {
    if a != [] {
      if a[0] == b[0] && IsSubseq(a[1..], b[1..]) {
        SubseqLength(a[1..], b[1..]);
      } else {
        SubseqLength(a, b[1..]);
      }
    }
  }

  lemma {:induction false} SubseqCons<T>(x: T, a: seq<T>, b: seq<T>)
    requires IsSubseq(a, b)
    ensures IsSubseq([x] + a, [x] + b)
  {
    assert ([x] + a)[1..] == a;
    assert ([x] + b)[1..] == b;
  }

  /** A step keeps the instruction at the front of the kept code, or not at
    * all. */
  lemma StepBackKept(p: Pass, op: Op, size: nat)
    requires StepBack(p, op, size).Some?
    ensures StepBack(p, op, size).value.kept in {p.kept, [op] + p.kept}
  {
  }

  lemma {:induction false} RunSubseq(pre: seq<Op>, suf: seq<Op>, p: Pass, size: nat)
    requires IsSubseq(p.kept, suf)
    requires Run(pre, p, size).Some?
    ensures IsSubseq(Run(pre, p, size).value.kept, pre + suf)
    decreases |pre|
  {
    if pre == [] {
      assert pre + suf == suf;
    } else {
      var last := pre[|pre| - 1];
      var q := StepBack(p, last, size).value;
      StepBackKept(p, last, size);
      if q.kept == p.kept {
        SubseqPrepend(p.kept, suf, [last]);
      } else {
        SubseqCons(last, p.kept, suf);
      }
      RunSubseq(pre[..|pre| - 1], [last] + suf, q, size);
      assert pre[..|pre| - 1] + ([last] + suf) == pre + suf;
    }
  }

  /** The optimized code is the input with some instructions dropped, in the
    * original order; so it is never longer. */
  lemma {:induction false} OptimizeIsSubseq(code: seq<Op>, outputRegs: seq<U8>, size: nat)
    requires OptimizeSpec(code, outputRegs, size).Some?
    ensures IsSubseq(OptimizeSpec(code, outputRegs, size).value, code)
    ensures |OptimizeSpec(code, outputRegs, size).value| <= |code|
  {
    RunSubseq(code, [], Start(outputRegs), size);
    assert code + [] == code;
    SubseqLength(OptimizeSpec(code, outputRegs, size).value, code);
  }

  /** With a flag for every `u8` register the pass never fails. */
  lemma {:induction false} RunTotal(code: seq<Op>, p: Pass)
    ensures Run(code, p, TableCorrected).Some?
    decreases |code|
  {
    if code != [] {
      var q := StepBack(p, code[|code| - 1], TableCorrected);
      assert q.Some?;
      RunTotal(code[..|code| - 1], q.value);
    }
  }

  lemma OptimizeCorrectedTotal(code: seq<Op>, outputRegs: seq<U8>)
    ensures OptimizeSpec(code, outputRegs, TableCorrected).Some?
  {
    RunTotal(code, Start(outputRegs));
  }

  /** As written, naming register 255 as an output panics. */
  lemma OptimizeAsWrittenPanics()
    ensures OptimizeSpec([], [255], TableAsWritten) == None
    ensures OptimizeSpec([Op(Add, Reg3Assign(255, 0, 1))], [0], TableAsWritten) == None
  {
    assert !InTable([255], TableAsWritten) by { assert [255][0] == 255; }
  }

  predicate EndsWith(r: seq<Op>, s: seq<Op>) {
    |r| >= |s| && r[|r| - |s|..] == s
  }

  lemma EndsWithTail(r: seq<Op>, x: Op, s: seq<Op>)
    requires EndsWith(r, [x] + s)
    ensures EndsWith(r, s)
  {
    assert r[|r| - |s|..] == r[|r| - |s| - 1..][1..];
  }

  /** The kept instructions so far stay at the end of the final result. */
  lemma {:induction false} RunKeepsSuffix(code: seq<Op>, p: Pass, size: nat)
    requires Run(code, p, size).Some?
    ensures EndsWith(Run(code, p, size).value.kept, p.kept)
    decreases |code|
  {
    if code != [] {
      var op := code[|code| - 1];
      var q := StepBack(p, op, size).value;
      StepBackKept(p, op, size);
      RunKeepsSuffix(code[..|code| - 1], q, size);
      if q.kept != p.kept {
        EndsWithTail(Run(code, p, size).value.kept, op, p.kept);
      }
    }
  }

  /** The registers written after a branch matter only when the branch was
    * reached with the next instruction kept. */
  lemma {:induction false} RunIgnoresNextOut(code: seq<Op>, p: Pass, x: seq<U8>)
    requires !p.nextEffective
    ensures Run(code, p, TableCorrected).Some?
    ensures Run(code, p.(nextOut := x), TableCorrected).Some?
    ensures Run(code, p, TableCorrected).value.kept == Run(code, p.(nextOut := x), TableCorrected).value.kept
  {
    RunTotal(code, p);
    RunTotal(code, p.(nextOut := x));
    if code != [] {
      assert StepBack(p, code[|code| - 1], TableCorrected) == StepBack(p.(nextOut := x), code[|code| - 1], TableCorrected);
    }
  }

  /** A last instruction that writes no output register (a trailing branch
    * included) is dropped and changes nothing else. */
  lemma DeadTailDropped(code: seq<Op>, op: Op, outputRegs: seq<U8>)
    requires forall r :: r in OutputRegs(op.operands) ==> r !in outputRegs
    ensures OptimizeSpec(code + [op], outputRegs, TableCorrected) == OptimizeSpec(code, outputRegs, TableCorrected)
  {
    var c := code + [op];
    assert c[..|c| - 1] == code;
    var q := StepBack(Start(outputRegs), op, TableCorrected).value;
    var outs := OutputRegs(op.operands);
    assert RegSet(outputRegs) * RegSet(outs) == {};
    assert RegSet(outputRegs) - RegSet(outs) == RegSet(outputRegs);
    assert q == Start(outputRegs).(nextOut := outs);
    RunIgnoresNextOut(code, Start(outputRegs), OutputRegs(op.operands));
  }

  /** A last instruction that writes an output register is kept, as the last
    * instruction of the result. */
  lemma LiveTailKept(code: seq<Op>, op: Op, outputRegs: seq<U8>)
    requires exists r :: r in OutputRegs(op.operands) && r in outputRegs
    ensures OptimizeSpec(code + [op], outputRegs, TableCorrected).Some?
    ensures var r := OptimizeSpec(code + [op], outputRegs, TableCorrected).value;
      |r| >= 1 && r[|r| - 1] == op
  {
    var s := Start(outputRegs);
    var outs := OutputRegs(op.operands);
    assert AnyLive(outs, s.live) by {
      assert outs[0] in RegSet(outs) * s.live;
    }
    StepBackLive(s, op);
    var q := StepBack(s, op, TableCorrected).value;
    RunSnoc(code, op, s, TableCorrected);
    RunTotal(code, q);
    RunKeepsSuffix(code, q, TableCorrected);
  }

  /** An instruction that writes a live register is kept. */
  lemma StepBackLive(p: Pass, op: Op)
    requires AnyLive(OutputRegs(op.operands), p.live)
    ensures StepBack(p, op, TableCorrected).Some?
    ensures StepBack(p, op, TableCorrected).value.kept == [op] + p.kept
  {
  }

  /** With no output registers nothing is effective. */
  lemma {:induction false} RunNothingLive(code: seq<Op>, p: Pass)
    requires p.live == {} && !p.nextEffective && p.kept == []
    ensures Run(code, p, TableCorrected).Some?
    ensures Run(code, p, TableCorrected).value.kept == []
    decreases |code|
  {
    if code != [] {
      var q := StepBack(p, code[|code| - 1], TableCorrected).value;
      RunNothingLive(code[..|code| - 1], q);
    }
  }

  lemma OptimizeNoOutputs(code: seq<Op>)
    ensures OptimizeSpec(code, [], TableCorrected) == Some([])
  {
    RunNothingLive(code, Start([]));
  }

  function Reg3(c: Opcode, ri: U8, ra: U8, rb: U8): Op { Op(c, Reg3Assign(ri, ra, rb)) }

  function IfLtOp(ra: U8, rb: U8): Op { Op(IfLt, Reg2Cmp(ra, rb)) }

  /** Running the pass over a program ending in `op` is one step then the
    * rest. */
  lemma {:induction false} RunSnoc(code: seq<Op>, op: Op, p: Pass, size: nat)
    ensures Run(code + [op], p, size) ==
      match StepBack(p, op, size)
      case None => None
      case Some(q) => Run(code, q, size)
  {
    assert (code + [op])[..|code|] == code;
  }

  /** One backward step over an instruction that writes register `ri` and
    * reads `ins`: kept exactly when `ri` is live. */
  lemma {:induction false} StepAssign(p: Pass, op: Op, ri: U8, ins: seq<U8>, size: nat)
    requires op.code != IfLt && !op.operands.Reg2Cmp?
    requires op.operands.ri == ri && InputRegs(op.operands) == ins
    requires ri < size && InTable(ins, size)
    ensures StepBack(p, op, size) == Some(
      if ri in p.live then Pass(p.live - {ri} + RegSet(ins), true, [ri], [op] + p.kept)
      else Pass(p.live - {ri}, false, [ri], p.kept))
  {
    assert RegSet([ri]) == {ri};
  }

  /** One backward step over a comparison: kept exactly when the instruction
    * after it was kept. */
  lemma StepIfLt(p: Pass, ra: U8, rb: U8, size: nat)
    requires ra < size && rb < size && InTable(p.nextOut, size)
    ensures StepBack(p, IfLtOp(ra, rb), size) == Some(
      if p.nextEffective then Pass(p.live + RegSet(p.nextOut) + {ra, rb}, true, [], [IfLtOp(ra, rb)] + p.kept)
      else Pass(p.live, false, [], p.kept))
  {
    assert RegSet([]) == {};
    assert p.live - {} == p.live;
    assert RegSet([ra, rb]) == {ra, rb};
  }

  lemma {:induction false} RunPrefix(code: seq<Op>, n: nat, p: Pass, q: Pass, size: nat)
    requires 0 < n <= |code|
    requires StepBack(p, code[n - 1], size) == Some(q)
    ensures Run(code[..n], p, size) == Run(code[..n - 1], q, size)
  {
    assert code[..n][..n - 1] == code[..n - 1];
  }

  lemma StartR0()
    ensures Start([0]) == Pass({0}, false, [], [])
    ensures InTable([0], TableCorrected)
  {
    assert RegSet([0]) == {0};
  }

  /** The test program `optimize_branches`. */
  const BranchesCode: seq<Op> := [Op(Neg, Reg2Assign(1, 2)), IfLtOp(1, 2), Reg3(Mul, 0, 1, 3), IfLtOp(2, 3), Reg3(Mul, 0, 2, 3), Reg3(Add, 0, 1, 2)]

  lemma OptimizeExampleBranchesStep5(code: seq<Op>, kept: seq<Op>)
    requires code == BranchesCode
    ensures Run(code[..6], Pass({0}, false, [], kept), TableCorrected)
         == Run(code[..5], Pass({1, 2}, true, [0], [Reg3(Add, 0, 1, 2)] + kept), TableCorrected)
  {
    var p := Pass({0}, false, [], kept);
    assert StepBack(p, code[5], TableCorrected) == Some(Pass({1, 2}, true, [0], [Reg3(Add, 0, 1, 2)] + kept)) by {
      assert code[5] == Reg3(Add, 0, 1, 2);
      StepAssign(p, Reg3(Add, 0, 1, 2), 0, [1, 2], TableCorrected);
      assert RegSet([1, 2]) == {1, 2};
      assert {0} - {0} + {1, 2} == {1, 2};
    }
    RunPrefix(code, 6, p, Pass({1, 2}, true, [0], [Reg3(Add, 0, 1, 2)] + kept), TableCorrected);
  }

  lemma OptimizeExampleBranchesStep4(code: seq<Op>, kept: seq<Op>)
    requires code == BranchesCode
    ensures Run(code[..5], Pass({1, 2}, true, [0], kept), TableCorrected)
         == Run(code[..4], Pass({1, 2}, false, [0], kept), TableCorrected)
  {
    var p := Pass({1, 2}, true, [0], kept);
    assert StepBack(p, code[4], TableCorrected) == Some(Pass({1, 2}, false, [0], kept)) by {
      assert code[4] == Reg3(Mul, 0, 2, 3);
      StepAssign(p, Reg3(Mul, 0, 2, 3), 0, [2, 3], TableCorrected);
      assert {1, 2} - {0} == {1, 2};
    }
    RunPrefix(code, 5, p, Pass({1, 2}, false, [0], kept), TableCorrected);
  }

  lemma OptimizeExampleBranchesStep3(code: seq<Op>, kept: seq<Op>)
    requires code == BranchesCode
    ensures Run(code[..4], Pass({1, 2}, false, [0], kept), TableCorrected)
         == Run(code[..3], Pass({1, 2}, false, [], kept), TableCorrected)
  {
    var p := Pass({1, 2}, false, [0], kept);
    assert StepBack(p, code[3], TableCorrected) == Some(Pass({1, 2}, false, [], kept)) by {
      assert code[3] == IfLtOp(2, 3);
      StepIfLt(p, 2, 3, TableCorrected);
    }
    RunPrefix(code, 4, p, Pass({1, 2}, false, [], kept), TableCorrected);
  }

  lemma OptimizeExampleBranchesStep2(code: seq<Op>, kept: seq<Op>)
    requires code == BranchesCode
    ensures Run(code[..3], Pass({1, 2}, false, [], kept), TableCorrected)
         == Run(code[..2], Pass({1, 2}, false, [0], kept), TableCorrected)
  {
    var p := Pass({1, 2}, false, [], kept);
    assert StepBack(p, code[2], TableCorrected) == Some(Pass({1, 2}, false, [0], kept)) by {
      assert code[2] == Reg3(Mul, 0, 1, 3);
      StepAssign(p, Reg3(Mul, 0, 1, 3), 0, [1, 3], TableCorrected);
      assert {1, 2} - {0} == {1, 2};
    }
    RunPrefix(code, 3, p, Pass({1, 2}, false, [0], kept), TableCorrected);
  }

  lemma OptimizeExampleBranchesStep1(code: seq<Op>, kept: seq<Op>)
    requires code == BranchesCode
    ensures Run(code[..2], Pass({1, 2}, false, [0], kept), TableCorrected)
         == Run(code[..1], Pass({1, 2}, false, [], kept), TableCorrected)
  {
    var p := Pass({1, 2}, false, [0], kept);
    assert StepBack(p, code[1], TableCorrected) == Some(Pass({1, 2}, false, [], kept)) by {
      assert code[1] == IfLtOp(1, 2);
      StepIfLt(p, 1, 2, TableCorrected);
    }
    RunPrefix(code, 2, p, Pass({1, 2}, false, [], kept), TableCorrected);
  }

  lemma OptimizeExampleBranchesStep0(code: seq<Op>, kept: seq<Op>)
    requires code == BranchesCode
    ensures Run(code[..1], Pass({1, 2}, false, [], kept), TableCorrected)
         == Run(code[..0], Pass({2}, true, [1], [Op(Neg, Reg2Assign(1, 2))] + kept), TableCorrected)
  {
    var p := Pass({1, 2}, false, [], kept);
    assert StepBack(p, code[0], TableCorrected) == Some(Pass({2}, true, [1], [Op(Neg, Reg2Assign(1, 2))] + kept)) by {
      assert code[0] == Op(Neg, Reg2Assign(1, 2));
      StepAssign(p, Op(Neg, Reg2Assign(1, 2)), 1, [2], TableCorrected);
      assert RegSet([2]) == {2};
      assert {1, 2} - {1} + {2} == {2};
    }
    RunPrefix(code, 1, p, Pass({2}, true, [1], [Op(Neg, Reg2Assign(1, 2))] + kept), TableCorrected);
  }

  lemma OptimizeExampleBranches(code: seq<Op>)
    requires code == BranchesCode
    ensures OptimizeSpec(code, [0], TableCorrected) == Some([Op(Neg, Reg2Assign(1, 2)), Reg3(Add, 0, 1, 2)])
  {
    StartR0();
    var k6: seq<Op> := [];
    OptimizeExampleBranchesStep5(code, k6);
    var k5 := [Reg3(Add, 0, 1, 2)] + k6;
    OptimizeExampleBranchesStep4(code, k5);
    var k4 := k5;
    OptimizeExampleBranchesStep3(code, k4);
    var k3 := k4;
    OptimizeExampleBranchesStep2(code, k3);
    var k2 := k3;
    OptimizeExampleBranchesStep1(code, k2);
    var k1 := k2;
    OptimizeExampleBranchesStep0(code, k1);
    var k0 := [Op(Neg, Reg2Assign(1, 2))] + k1;
    assert k0 == [Op(Neg, Reg2Assign(1, 2)), Reg3(Add, 0, 1, 2)];
    assert code[..6] == code;
  }

  /** The test program `optimize_basic`. */
  const BasicCode: seq<Op> := [Reg3(Add, 1, 1, 2), IfLtOp(1, 2), Reg3(Mul, 1, 1, 3), Reg3(Add, 0, 2, 3)]

  lemma OptimizeExampleBasicStep3(code: seq<Op>, kept: seq<Op>)
    requires code == BasicCode
    ensures Run(code[..4], Pass({0}, false, [], kept), TableCorrected)
         == Run(code[..3], Pass({2, 3}, true, [0], [Reg3(Add, 0, 2, 3)] + kept), TableCorrected)
  {
    var p := Pass({0}, false, [], kept);
    assert StepBack(p, code[3], TableCorrected) == Some(Pass({2, 3}, true, [0], [Reg3(Add, 0, 2, 3)] + kept)) by {
      assert code[3] == Reg3(Add, 0, 2, 3);
      StepAssign(p, Reg3(Add, 0, 2, 3), 0, [2, 3], TableCorrected);
      assert RegSet([2, 3]) == {2, 3};
      assert {0} - {0} + {2, 3} == {2, 3};
    }
    RunPrefix(code, 4, p, Pass({2, 3}, true, [0], [Reg3(Add, 0, 2, 3)] + kept), TableCorrected);
  }

  lemma OptimizeExampleBasicStep2(code: seq<Op>, kept: seq<Op>)
    requires code == BasicCode
    ensures Run(code[..3], Pass({2, 3}, true, [0], kept), TableCorrected)
         == Run(code[..2], Pass({2, 3}, false, [1], kept), TableCorrected)
  {
    var p := Pass({2, 3}, true, [0], kept);
    assert StepBack(p, code[2], TableCorrected) == Some(Pass({2, 3}, false, [1], kept)) by {
      assert code[2] == Reg3(Mul, 1, 1, 3);
      StepAssign(p, Reg3(Mul, 1, 1, 3), 1, [1, 3], TableCorrected);
      assert {2, 3} - {1} == {2, 3};
    }
    RunPrefix(code, 3, p, Pass({2, 3}, false, [1], kept), TableCorrected);
  }

  lemma OptimizeExampleBasicStep1(code: seq<Op>, kept: seq<Op>)
    requires code == BasicCode
    ensures Run(code[..2], Pass({2, 3}, false, [1], kept), TableCorrected)
         == Run(code[..1], Pass({2, 3}, false, [], kept), TableCorrected)
  {
    var p := Pass({2, 3}, false, [1], kept);
    assert StepBack(p, code[1], TableCorrected) == Some(Pass({2, 3}, false, [], kept)) by {
      assert code[1] == IfLtOp(1, 2);
      StepIfLt(p, 1, 2, TableCorrected);
    }
    RunPrefix(code, 2, p, Pass({2, 3}, false, [], kept), TableCorrected);
  }

  lemma OptimizeExampleBasicStep0(code: seq<Op>, kept: seq<Op>)
    requires code == BasicCode
    ensures Run(code[..1], Pass({2, 3}, false, [], kept), TableCorrected)
         == Run(code[..0], Pass({2, 3}, false, [1], kept), TableCorrected)
  {
    var p := Pass({2, 3}, false, [], kept);
    assert StepBack(p, code[0], TableCorrected) == Some(Pass({2, 3}, false, [1], kept)) by {
      assert code[0] == Reg3(Add, 1, 1, 2);
      StepAssign(p, Reg3(Add, 1, 1, 2), 1, [1, 2], TableCorrected);
      assert {2, 3} - {1} == {2, 3};
    }
    RunPrefix(code, 1, p, Pass({2, 3}, false, [1], kept), TableCorrected);
  }

  lemma OptimizeExampleBasic(code: seq<Op>)
    requires code == BasicCode
    ensures OptimizeSpec(code, [0], TableCorrected) == Some([Reg3(Add, 0, 2, 3)])
  {
    StartR0();
    var k4: seq<Op> := [];
    OptimizeExampleBasicStep3(code, k4);
    var k3 := [Reg3(Add, 0, 2, 3)] + k4;
    OptimizeExampleBasicStep2(code, k3);
    var k2 := k3;
    OptimizeExampleBasicStep1(code, k2);
    var k1 := k2;
    OptimizeExampleBasicStep0(code, k1);
    var k0 := k1;
    assert k0 == [Reg3(Add, 0, 2, 3)];
    assert code[..4] == code;
  }

  /** The test program `optimize_branch_off`. */
  const BranchOffCode: seq<Op> := [Reg3(Add, 4, 1, 2), Reg3(Add, 3, 1, 2), Reg3(Add, 1, 1, 2), IfLtOp(2, 3), Reg3(Mul, 1, 2, 3), Reg3(Add, 0, 2, 2)]

  lemma OptimizeExampleBranchOffStep5(code: seq<Op>, kept: seq<Op>)
    requires code == BranchOffCode
    ensures Run(code[..6], Pass({0}, false, [], kept), TableCorrected)
         == Run(code[..5], Pass({2}, true, [0], [Reg3(Add, 0, 2, 2)] + kept), TableCorrected)
  {
    var p := Pass({0}, false, [], kept);
    assert StepBack(p, code[5], TableCorrected) == Some(Pass({2}, true, [0], [Reg3(Add, 0, 2, 2)] + kept)) by {
      assert code[5] == Reg3(Add, 0, 2, 2);
      StepAssign(p, Reg3(Add, 0, 2, 2), 0, [2, 2], TableCorrected);
      assert RegSet([2, 2]) == {2, 2};
      assert {0} - {0} + {2, 2} == {2};
    }
    RunPrefix(code, 6, p, Pass({2}, true, [0], [Reg3(Add, 0, 2, 2)] + kept), TableCorrected);
  }

  lemma OptimizeExampleBranchOffStep4(code: seq<Op>, kept: seq<Op>)
    requires code == BranchOffCode
    ensures Run(code[..5], Pass({2}, true, [0], kept), TableCorrected)
         == Run(code[..4], Pass({2}, false, [1], kept), TableCorrected)
  {
    var p := Pass({2}, true, [0], kept);
    assert StepBack(p, code[4], TableCorrected) == Some(Pass({2}, false, [1], kept)) by {
      assert code[4] == Reg3(Mul, 1, 2, 3);
      StepAssign(p, Reg3(Mul, 1, 2, 3), 1, [2, 3], TableCorrected);
      assert {2} - {1} == {2};
    }
    RunPrefix(code, 5, p, Pass({2}, false, [1], kept), TableCorrected);
  }

  lemma OptimizeExampleBranchOffStep3(code: seq<Op>, kept: seq<Op>)
    requires code == BranchOffCode
    ensures Run(code[..4], Pass({2}, false, [1], kept), TableCorrected)
         == Run(code[..3], Pass({2}, false, [], kept), TableCorrected)
  {
    var p := Pass({2}, false, [1], kept);
    assert StepBack(p, code[3], TableCorrected) == Some(Pass({2}, false, [], kept)) by {
      assert code[3] == IfLtOp(2, 3);
      StepIfLt(p, 2, 3, TableCorrected);
    }
    RunPrefix(code, 4, p, Pass({2}, false, [], kept), TableCorrected);
  }

  lemma OptimizeExampleBranchOffStep2(code: seq<Op>, kept: seq<Op>)
    requires code == BranchOffCode
    ensures Run(code[..3], Pass({2}, false, [], kept), TableCorrected)
         == Run(code[..2], Pass({2}, false, [1], kept), TableCorrected)
  {
    var p := Pass({2}, false, [], kept);
    assert StepBack(p, code[2], TableCorrected) == Some(Pass({2}, false, [1], kept)) by {
      assert code[2] == Reg3(Add, 1, 1, 2);
      StepAssign(p, Reg3(Add, 1, 1, 2), 1, [1, 2], TableCorrected);
      assert {2} - {1} == {2};
    }
    RunPrefix(code, 3, p, Pass({2}, false, [1], kept), TableCorrected);
  }

  lemma OptimizeExampleBranchOffStep1(code: seq<Op>, kept: seq<Op>)
    requires code == BranchOffCode
    ensures Run(code[..2], Pass({2}, false, [1], kept), TableCorrected)
         == Run(code[..1], Pass({2}, false, [3], kept), TableCorrected)
  {
    var p := Pass({2}, false, [1], kept);
    assert StepBack(p, code[1], TableCorrected) == Some(Pass({2}, false, [3], kept)) by {
      assert code[1] == Reg3(Add, 3, 1, 2);
      StepAssign(p, Reg3(Add, 3, 1, 2), 3, [1, 2], TableCorrected);
      assert {2} - {3} == {2};
    }
    RunPrefix(code, 2, p, Pass({2}, false, [3], kept), TableCorrected);
  }

  lemma OptimizeExampleBranchOffStep0(code: seq<Op>, kept: seq<Op>)
    requires code == BranchOffCode
    ensures Run(code[..1], Pass({2}, false, [3], kept), TableCorrected)
         == Run(code[..0], Pass({2}, false, [4], kept), TableCorrected)
  {
    var p := Pass({2}, false, [3], kept);
    assert StepBack(p, code[0], TableCorrected) == Some(Pass({2}, false, [4], kept)) by {
      assert code[0] == Reg3(Add, 4, 1, 2);
      StepAssign(p, Reg3(Add, 4, 1, 2), 4, [1, 2], TableCorrected);
      assert {2} - {4} == {2};
    }
    RunPrefix(code, 1, p, Pass({2}, false, [4], kept), TableCorrected);
  }

  lemma OptimizeExampleBranchOff(code: seq<Op>)
    requires code == BranchOffCode
    ensures OptimizeSpec(code, [0], TableCorrected) == Some([Reg3(Add, 0, 2, 2)])
  {
    StartR0();
    var k6: seq<Op> := [];
    OptimizeExampleBranchOffStep5(code, k6);
    var k5 := [Reg3(Add, 0, 2, 2)] + k6;
    OptimizeExampleBranchOffStep4(code, k5);
    var k4 := k5;
    OptimizeExampleBranchOffStep3(code, k4);
    var k3 := k4;
    OptimizeExampleBranchOffStep2(code, k3);
    var k2 := k3;
    OptimizeExampleBranchOffStep1(code, k2);
    var k1 := k2;
    OptimizeExampleBranchOffStep0(code, k1);
    var k0 := k1;
    assert k0 == [Reg3(Add, 0, 2, 2)];
    assert code[..6] == code;
  }

  /** The test program `optimize_branch_on`. */
  const BranchOnCode: seq<Op> := [Reg3(Add, 4, 1, 2), Reg3(Add, 3, 1, 2), Reg3(Add, 1, 1, 2), IfLtOp(2, 3), Reg3(Mul, 1, 2, 3), Reg3(Add, 0, 1, 1)]

  lemma OptimizeExampleBranchOnStep5(code: seq<Op>, kept: seq<Op>)
    requires code == BranchOnCode
    ensures Run(code[..6], Pass({0}, false, [], kept), TableCorrected)
         == Run(code[..5], Pass({1}, true, [0], [Reg3(Add, 0, 1, 1)] + kept), TableCorrected)
  {
    var p := Pass({0}, false, [], kept);
    assert StepBack(p, code[5], TableCorrected) == Some(Pass({1}, true, [0], [Reg3(Add, 0, 1, 1)] + kept)) by {
      assert code[5] == Reg3(Add, 0, 1, 1);
      StepAssign(p, Reg3(Add, 0, 1, 1), 0, [1, 1], TableCorrected);
      assert RegSet([1, 1]) == {1, 1};
      assert {0} - {0} + {1, 1} == {1};
    }
    RunPrefix(code, 6, p, Pass({1}, true, [0], [Reg3(Add, 0, 1, 1)] + kept), TableCorrected);
  }

  lemma OptimizeExampleBranchOnStep4(code: seq<Op>, kept: seq<Op>)
    requires code == BranchOnCode
    ensures Run(code[..5], Pass({1}, true, [0], kept), TableCorrected)
         == Run(code[..4], Pass({2, 3}, true, [1], [Reg3(Mul, 1, 2, 3)] + kept), TableCorrected)
  {
    var p := Pass({1}, true, [0], kept);
    assert StepBack(p, code[4], TableCorrected) == Some(Pass({2, 3}, true, [1], [Reg3(Mul, 1, 2, 3)] + kept)) by {
      assert code[4] == Reg3(Mul, 1, 2, 3);
      StepAssign(p, Reg3(Mul, 1, 2, 3), 1, [2, 3], TableCorrected);
      assert RegSet([2, 3]) == {2, 3};
      assert {1} - {1} + {2, 3} == {2, 3};
    }
    RunPrefix(code, 5, p, Pass({2, 3}, true, [1], [Reg3(Mul, 1, 2, 3)] + kept), TableCorrected);
  }

  lemma OptimizeExampleBranchOnStep3(code: seq<Op>, kept: seq<Op>)
    requires code == BranchOnCode
    ensures Run(code[..4], Pass({2, 3}, true, [1], kept), TableCorrected)
         == Run(code[..3], Pass({1, 2, 3}, true, [], [IfLtOp(2, 3)] + kept), TableCorrected)
  {
    var p := Pass({2, 3}, true, [1], kept);
    assert StepBack(p, code[3], TableCorrected) == Some(Pass({1, 2, 3}, true, [], [IfLtOp(2, 3)] + kept)) by {
      assert code[3] == IfLtOp(2, 3);
      StepIfLt(p, 2, 3, TableCorrected);
      assert RegSet([1]) == {1};
      assert {2, 3} + {1} + {2, 3} == {1, 2, 3};
    }
    RunPrefix(code, 4, p, Pass({1, 2, 3}, true, [], [IfLtOp(2, 3)] + kept), TableCorrected);
  }

  lemma OptimizeExampleBranchOnStep2(code: seq<Op>, kept: seq<Op>)
    requires code == BranchOnCode
    ensures Run(code[..3], Pass({1, 2, 3}, true, [], kept), TableCorrected)
         == Run(code[..2], Pass({1, 2, 3}, true, [1], [Reg3(Add, 1, 1, 2)] + kept), TableCorrected)
  {
    var p := Pass({1, 2, 3}, true, [], kept);
    assert StepBack(p, code[2], TableCorrected) == Some(Pass({1, 2, 3}, true, [1], [Reg3(Add, 1, 1, 2)] + kept)) by {
      assert code[2] == Reg3(Add, 1, 1, 2);
      StepAssign(p, Reg3(Add, 1, 1, 2), 1, [1, 2], TableCorrected);
      assert RegSet([1, 2]) == {1, 2};
      assert {1, 2, 3} - {1} + {1, 2} == {1, 2, 3};
    }
    RunPrefix(code, 3, p, Pass({1, 2, 3}, true, [1], [Reg3(Add, 1, 1, 2)] + kept), TableCorrected);
  }

  lemma OptimizeExampleBranchOnStep1(code: seq<Op>, kept: seq<Op>)
    requires code == BranchOnCode
    ensures Run(code[..2], Pass({1, 2, 3}, true, [1], kept), TableCorrected)
         == Run(code[..1], Pass({1, 2}, true, [3], [Reg3(Add, 3, 1, 2)] + kept), TableCorrected)
  {
    var p := Pass({1, 2, 3}, true, [1], kept);
    assert StepBack(p, code[1], TableCorrected) == Some(Pass({1, 2}, true, [3], [Reg3(Add, 3, 1, 2)] + kept)) by {
      assert code[1] == Reg3(Add, 3, 1, 2);
      StepAssign(p, Reg3(Add, 3, 1, 2), 3, [1, 2], TableCorrected);
      assert RegSet([1, 2]) == {1, 2};
      assert {1, 2, 3} - {3} + {1, 2} == {1, 2};
    }
    RunPrefix(code, 2, p, Pass({1, 2}, true, [3], [Reg3(Add, 3, 1, 2)] + kept), TableCorrected);
  }

  lemma OptimizeExampleBranchOnStep0(code: seq<Op>, kept: seq<Op>)
    requires code == BranchOnCode
    ensures Run(code[..1], Pass({1, 2}, true, [3], kept), TableCorrected)
         == Run(code[..0], Pass({1, 2}, false, [4], kept), TableCorrected)
  {
    var p := Pass({1, 2}, true, [3], kept);
    assert StepBack(p, code[0], TableCorrected) == Some(Pass({1, 2}, false, [4], kept)) by {
      assert code[0] == Reg3(Add, 4, 1, 2);
      StepAssign(p, Reg3(Add, 4, 1, 2), 4, [1, 2], TableCorrected);
      assert {1, 2} - {4} == {1, 2};
    }
    RunPrefix(code, 1, p, Pass({1, 2}, false, [4], kept), TableCorrected);
  }

  lemma OptimizeExampleBranchOnTailKept()
    ensures [IfLtOp(2, 3)] + ([Reg3(Mul, 1, 2, 3)] + ([Reg3(Add, 0, 1, 1)] + ([])))
         == [IfLtOp(2, 3), Reg3(Mul, 1, 2, 3), Reg3(Add, 0, 1, 1)]
  {
  }

  lemma {:induction false} OptimizeExampleBranchOnTail(code: seq<Op>)
    requires code == BranchOnCode
    ensures Run(code, Pass({0}, false, [], []), TableCorrected)
         == Run(code[..3], Pass({1, 2, 3}, true, [], [IfLtOp(2, 3), Reg3(Mul, 1, 2, 3), Reg3(Add, 0, 1, 1)]), TableCorrected)
  {
    var k6: seq<Op> := [];
    OptimizeExampleBranchOnStep5(code, k6);
    var k5 := [Reg3(Add, 0, 1, 1)] + k6;
    OptimizeExampleBranchOnStep4(code, k5);
    var k4 := [Reg3(Mul, 1, 2, 3)] + k5;
    OptimizeExampleBranchOnStep3(code, k4);
    var k3 := [IfLtOp(2, 3)] + k4;
    OptimizeExampleBranchOnTailKept();
    assert code[..6] == code;
  }

  lemma OptimizeExampleBranchOnKept()
    ensures [Reg3(Add, 3, 1, 2)] + ([Reg3(Add, 1, 1, 2)] + ([IfLtOp(2, 3), Reg3(Mul, 1, 2, 3), Reg3(Add, 0, 1, 1)]))
         == [Reg3(Add, 3, 1, 2), Reg3(Add, 1, 1, 2), IfLtOp(2, 3), Reg3(Mul, 1, 2, 3), Reg3(Add, 0, 1, 1)]
  {
  }

  lemma OptimizeExampleBranchOn(code: seq<Op>)
    requires code == BranchOnCode
    ensures OptimizeSpec(code, [0], TableCorrected) == Some([Reg3(Add, 3, 1, 2), Reg3(Add, 1, 1, 2), IfLtOp(2, 3), Reg3(Mul, 1, 2, 3), Reg3(Add, 0, 1, 1)])
  {
    StartR0();
    OptimizeExampleBranchOnTail(code);
    var k3: seq<Op> := [IfLtOp(2, 3), Reg3(Mul, 1, 2, 3), Reg3(Add, 0, 1, 1)];
    OptimizeExampleBranchOnStep2(code, k3);
    var k2 := [Reg3(Add, 1, 1, 2)] + k3;
    OptimizeExampleBranchOnStep1(code, k2);
    var k1 := [Reg3(Add, 3, 1, 2)] + k2;
    OptimizeExampleBranchOnStep0(code, k1);
    var k0 := k1;
    OptimizeExampleBranchOnKept();
    assert code[..6] == code;
  }

  /** The test program `optimize_two_branch_off`. */
  const TwoBranchOffCode: seq<Op> := [Reg3(Add, 4, 1, 2), Reg3(Add, 3, 1, 2), Reg3(Add, 1, 1, 2), IfLtOp(2, 4), IfLtOp(2, 3), Reg3(Mul, 1, 2, 3), Reg3(Add, 0, 2, 2)]

  lemma OptimizeExampleTwoBranchOffStep6(code: seq<Op>, kept: seq<Op>)
    requires code == TwoBranchOffCode
    ensures Run(code[..7], Pass({0}, false, [], kept), TableCorrected)
         == Run(code[..6], Pass({2}, true, [0], [Reg3(Add, 0, 2, 2)] + kept), TableCorrected)
  {
    var p := Pass({0}, false, [], kept);
    assert StepBack(p, code[6], TableCorrected) == Some(Pass({2}, true, [0], [Reg3(Add, 0, 2, 2)] + kept)) by {
      assert code[6] == Reg3(Add, 0, 2, 2);
      StepAssign(p, Reg3(Add, 0, 2, 2), 0, [2, 2], TableCorrected);
      assert RegSet([2, 2]) == {2, 2};
      assert {0} - {0} + {2, 2} == {2};
    }
    RunPrefix(code, 7, p, Pass({2}, true, [0], [Reg3(Add, 0, 2, 2)] + kept), TableCorrected);
  }

  lemma OptimizeExampleTwoBranchOffStep5(code: seq<Op>, kept: seq<Op>)
    requires code == TwoBranchOffCode
    ensures Run(code[..6], Pass({2}, true, [0], kept), TableCorrected)
         == Run(code[..5], Pass({2}, false, [1], kept), TableCorrected)
  {
    var p := Pass({2}, true, [0], kept);
    assert StepBack(p, code[5], TableCorrected) == Some(Pass({2}, false, [1], kept)) by {
      assert code[5] == Reg3(Mul, 1, 2, 3);
      StepAssign(p, Reg3(Mul, 1, 2, 3), 1, [2, 3], TableCorrected);
      assert {2} - {1} == {2};
    }
    RunPrefix(code, 6, p, Pass({2}, false, [1], kept), TableCorrected);
  }

  lemma OptimizeExampleTwoBranchOffStep4(code: seq<Op>, kept: seq<Op>)
    requires code == TwoBranchOffCode
    ensures Run(code[..5], Pass({2}, false, [1], kept), TableCorrected)
         == Run(code[..4], Pass({2}, false, [], kept), TableCorrected)
  {
    var p := Pass({2}, false, [1], kept);
    assert StepBack(p, code[4], TableCorrected) == Some(Pass({2}, false, [], kept)) by {
      assert code[4] == IfLtOp(2, 3);
      StepIfLt(p, 2, 3, TableCorrected);
    }
    RunPrefix(code, 5, p, Pass({2}, false, [], kept), TableCorrected);
  }

  lemma OptimizeExampleTwoBranchOffStep3(code: seq<Op>, kept: seq<Op>)
    requires code == TwoBranchOffCode
    ensures Run(code[..4], Pass({2}, false, [], kept), TableCorrected)
         == Run(code[..3], Pass({2}, false, [], kept), TableCorrected)
  {
    var p := Pass({2}, false, [], kept);
    assert StepBack(p, code[3], TableCorrected) == Some(Pass({2}, false, [], kept)) by {
      assert code[3] == IfLtOp(2, 4);
      StepIfLt(p, 2, 4, TableCorrected);
    }
    RunPrefix(code, 4, p, Pass({2}, false, [], kept), TableCorrected);
  }

  lemma OptimizeExampleTwoBranchOffStep2(code: seq<Op>, kept: seq<Op>)
    requires code == TwoBranchOffCode
    ensures Run(code[..3], Pass({2}, false, [], kept), TableCorrected)
         == Run(code[..2], Pass({2}, false, [1], kept), TableCorrected)
  {
    var p := Pass({2}, false, [], kept);
    assert StepBack(p, code[2], TableCorrected) == Some(Pass({2}, false, [1], kept)) by {
      assert code[2] == Reg3(Add, 1, 1, 2);
      StepAssign(p, Reg3(Add, 1, 1, 2), 1, [1, 2], TableCorrected);
      assert {2} - {1} == {2};
    }
    RunPrefix(code, 3, p, Pass({2}, false, [1], kept), TableCorrected);
  }

  lemma OptimizeExampleTwoBranchOffStep1(code: seq<Op>, kept: seq<Op>)
    requires code == TwoBranchOffCode
    ensures Run(code[..2], Pass({2}, false, [1], kept), TableCorrected)
         == Run(code[..1], Pass({2}, false, [3], kept), TableCorrected)
  {
    var p := Pass({2}, false, [1], kept);
    assert StepBack(p, code[1], TableCorrected) == Some(Pass({2}, false, [3], kept)) by {
      assert code[1] == Reg3(Add, 3, 1, 2);
      StepAssign(p, Reg3(Add, 3, 1, 2), 3, [1, 2], TableCorrected);
      assert {2} - {3} == {2};
    }
    RunPrefix(code, 2, p, Pass({2}, false, [3], kept), TableCorrected);
  }

  lemma OptimizeExampleTwoBranchOffStep0(code: seq<Op>, kept: seq<Op>)
    requires code == TwoBranchOffCode
    ensures Run(code[..1], Pass({2}, false, [3], kept), TableCorrected)
         == Run(code[..0], Pass({2}, false, [4], kept), TableCorrected)
  {
    var p := Pass({2}, false, [3], kept);
    assert StepBack(p, code[0], TableCorrected) == Some(Pass({2}, false, [4], kept)) by {
      assert code[0] == Reg3(Add, 4, 1, 2);
      StepAssign(p, Reg3(Add, 4, 1, 2), 4, [1, 2], TableCorrected);
      assert {2} - {4} == {2};
    }
    RunPrefix(code, 1, p, Pass({2}, false, [4], kept), TableCorrected);
  }

  lemma OptimizeExampleTwoBranchOff(code: seq<Op>)
    requires code == TwoBranchOffCode
    ensures OptimizeSpec(code, [0], TableCorrected) == Some([Reg3(Add, 0, 2, 2)])
  {
    StartR0();
    var k7: seq<Op> := [];
    OptimizeExampleTwoBranchOffStep6(code, k7);
    var k6 := [Reg3(Add, 0, 2, 2)] + k7;
    OptimizeExampleTwoBranchOffStep5(code, k6);
    var k5 := k6;
    OptimizeExampleTwoBranchOffStep4(code, k5);
    var k4 := k5;
    OptimizeExampleTwoBranchOffStep3(code, k4);
    var k3 := k4;
    OptimizeExampleTwoBranchOffStep2(code, k3);
    var k2 := k3;
    OptimizeExampleTwoBranchOffStep1(code, k2);
    var k1 := k2;
    OptimizeExampleTwoBranchOffStep0(code, k1);
    var k0 := k1;
    assert k0 == [Reg3(Add, 0, 2, 2)];
    assert code[..7] == code;
  }

  /** The test program `optimize_two_branch_on`. */
  const TwoBranchOnCode: seq<Op> := [Reg3(Add, 4, 1, 2), Reg3(Add, 3, 1, 2), Reg3(Add, 1, 1, 2), IfLtOp(2, 4), IfLtOp(2, 3), Reg3(Mul, 1, 2, 3), Reg3(Add, 0, 1, 1)]

  lemma OptimizeExampleTwoBranchOnStep6(code: seq<Op>, kept: seq<Op>)
    requires code == TwoBranchOnCode
    ensures Run(code[..7], Pass({0}, false, [], kept), TableCorrected)
         == Run(code[..6], Pass({1}, true, [0], [Reg3(Add, 0, 1, 1)] + kept), TableCorrected)
  {
    var p := Pass({0}, false, [], kept);
    assert StepBack(p, code[6], TableCorrected) == Some(Pass({1}, true, [0], [Reg3(Add, 0, 1, 1)] + kept)) by {
      assert code[6] == Reg3(Add, 0, 1, 1);
      StepAssign(p, Reg3(Add, 0, 1, 1), 0, [1, 1], TableCorrected);
      assert RegSet([1, 1]) == {1, 1};
      assert {0} - {0} + {1, 1} == {1};
    }
    RunPrefix(code, 7, p, Pass({1}, true, [0], [Reg3(Add, 0, 1, 1)] + kept), TableCorrected);
  }

  lemma OptimizeExampleTwoBranchOnStep5(code: seq<Op>, kept: seq<Op>)
    requires code == TwoBranchOnCode
    ensures Run(code[..6], Pass({1}, true, [0], kept), TableCorrected)
         == Run(code[..5], Pass({2, 3}, true, [1], [Reg3(Mul, 1, 2, 3)] + kept), TableCorrected)
  {
    var p := Pass({1}, true, [0], kept);
    assert StepBack(p, code[5], TableCorrected) == Some(Pass({2, 3}, true, [1], [Reg3(Mul, 1, 2, 3)] + kept)) by {
      assert code[5] == Reg3(Mul, 1, 2, 3);
      StepAssign(p, Reg3(Mul, 1, 2, 3), 1, [2, 3], TableCorrected);
      assert RegSet([2, 3]) == {2, 3};
      assert {1} - {1} + {2, 3} == {2, 3};
    }
    RunPrefix(code, 6, p, Pass({2, 3}, true, [1], [Reg3(Mul, 1, 2, 3)] + kept), TableCorrected);
  }

  lemma OptimizeExampleTwoBranchOnStep4(code: seq<Op>, kept: seq<Op>)
    requires code == TwoBranchOnCode
    ensures Run(code[..5], Pass({2, 3}, true, [1], kept), TableCorrected)
         == Run(code[..4], Pass({1, 2, 3}, true, [], [IfLtOp(2, 3)] + kept), TableCorrected)
  {
    var p := Pass({2, 3}, true, [1], kept);
    assert StepBack(p, code[4], TableCorrected) == Some(Pass({1, 2, 3}, true, [], [IfLtOp(2, 3)] + kept)) by {
      assert code[4] == IfLtOp(2, 3);
      StepIfLt(p, 2, 3, TableCorrected);
      assert RegSet([1]) == {1};
      assert {2, 3} + {1} + {2, 3} == {1, 2, 3};
    }
    RunPrefix(code, 5, p, Pass({1, 2, 3}, true, [], [IfLtOp(2, 3)] + kept), TableCorrected);
  }

  lemma OptimizeExampleTwoBranchOnStep3(code: seq<Op>, kept: seq<Op>)
    requires code == TwoBranchOnCode
    ensures Run(code[..4], Pass({1, 2, 3}, true, [], kept), TableCorrected)
         == Run(code[..3], Pass({1, 2, 3, 4}, true, [], [IfLtOp(2, 4)] + kept), TableCorrected)
  {
    var p := Pass({1, 2, 3}, true, [], kept);
    assert StepBack(p, code[3], TableCorrected) == Some(Pass({1, 2, 3, 4}, true, [], [IfLtOp(2, 4)] + kept)) by {
      assert code[3] == IfLtOp(2, 4);
      StepIfLt(p, 2, 4, TableCorrected);
      assert RegSet([]) == {};
      assert {1, 2, 3} + {} + {2, 4} == {1, 2, 3, 4};
    }
    RunPrefix(code, 4, p, Pass({1, 2, 3, 4}, true, [], [IfLtOp(2, 4)] + kept), TableCorrected);
  }

  lemma OptimizeExampleTwoBranchOnStep2(code: seq<Op>, kept: seq<Op>)
    requires code == TwoBranchOnCode
    ensures Run(code[..3], Pass({1, 2, 3, 4}, true, [], kept), TableCorrected)
         == Run(code[..2], Pass({1, 2, 3, 4}, true, [1], [Reg3(Add, 1, 1, 2)] + kept), TableCorrected)
  {
    var p := Pass({1, 2, 3, 4}, true, [], kept);
    assert StepBack(p, code[2], TableCorrected) == Some(Pass({1, 2, 3, 4}, true, [1], [Reg3(Add, 1, 1, 2)] + kept)) by {
      assert code[2] == Reg3(Add, 1, 1, 2);
      StepAssign(p, Reg3(Add, 1, 1, 2), 1, [1, 2], TableCorrected);
      assert RegSet([1, 2]) == {1, 2};
      assert {1, 2, 3, 4} - {1} + {1, 2} == {1, 2, 3, 4};
    }
    RunPrefix(code, 3, p, Pass({1, 2, 3, 4}, true, [1], [Reg3(Add, 1, 1, 2)] + kept), TableCorrected);
  }

  lemma OptimizeExampleTwoBranchOnStep1(code: seq<Op>, kept: seq<Op>)
    requires code == TwoBranchOnCode
    ensures Run(code[..2], Pass({1, 2, 3, 4}, true, [1], kept), TableCorrected)
         == Run(code[..1], Pass({1, 2, 4}, true, [3], [Reg3(Add, 3, 1, 2)] + kept), TableCorrected)
  {
    var p := Pass({1, 2, 3, 4}, true, [1], kept);
    assert StepBack(p, code[1], TableCorrected) == Some(Pass({1, 2, 4}, true, [3], [Reg3(Add, 3, 1, 2)] + kept)) by {
      assert code[1] == Reg3(Add, 3, 1, 2);
      StepAssign(p, Reg3(Add, 3, 1, 2), 3, [1, 2], TableCorrected);
      assert RegSet([1, 2]) == {1, 2};
      assert {1, 2, 3, 4} - {3} + {1, 2} == {1, 2, 4};
    }
    RunPrefix(code, 2, p, Pass({1, 2, 4}, true, [3], [Reg3(Add, 3, 1, 2)] + kept), TableCorrected);
  }

  lemma OptimizeExampleTwoBranchOnStep0(code: seq<Op>, kept: seq<Op>)
    requires code == TwoBranchOnCode
    ensures Run(code[..1], Pass({1, 2, 4}, true, [3], kept), TableCorrected)
         == Run(code[..0], Pass({1, 2}, true, [4], [Reg3(Add, 4, 1, 2)] + kept), TableCorrected)
  {
    var p := Pass({1, 2, 4}, true, [3], kept);
    assert StepBack(p, code[0], TableCorrected) == Some(Pass({1, 2}, true, [4], [Reg3(Add, 4, 1, 2)] + kept)) by {
      assert code[0] == Reg3(Add, 4, 1, 2);
      StepAssign(p, Reg3(Add, 4, 1, 2), 4, [1, 2], TableCorrected);
      assert RegSet([1, 2]) == {1, 2};
      assert {1, 2, 4} - {4} + {1, 2} == {1, 2};
    }
    RunPrefix(code, 1, p, Pass({1, 2}, true, [4], [Reg3(Add, 4, 1, 2)] + kept), TableCorrected);
  }

  lemma OptimizeExampleTwoBranchOnTailKept()
    ensures [IfLtOp(2, 4)] + ([IfLtOp(2, 3)] + ([Reg3(Mul, 1, 2, 3)] + ([Reg3(Add, 0, 1, 1)] + ([]))))
         == [IfLtOp(2, 4), IfLtOp(2, 3), Reg3(Mul, 1, 2, 3), Reg3(Add, 0, 1, 1)]
  {
  }

  lemma {:induction false} OptimizeExampleTwoBranchOnTail(code: seq<Op>)
    requires code == TwoBranchOnCode
    ensures Run(code, Pass({0}, false, [], []), TableCorrected)
         == Run(code[..3], Pass({1, 2, 3, 4}, true, [], [IfLtOp(2, 4), IfLtOp(2, 3), Reg3(Mul, 1, 2, 3), Reg3(Add, 0, 1, 1)]), TableCorrected)
  {
    var k7: seq<Op> := [];
    OptimizeExampleTwoBranchOnStep6(code, k7);
    var k6 := [Reg3(Add, 0, 1, 1)] + k7;
    OptimizeExampleTwoBranchOnStep5(code, k6);
    var k5 := [Reg3(Mul, 1, 2, 3)] + k6;
    OptimizeExampleTwoBranchOnStep4(code, k5);
    var k4 := [IfLtOp(2, 3)] + k5;
    OptimizeExampleTwoBranchOnStep3(code, k4);
    var k3 := [IfLtOp(2, 4)] + k4;
    OptimizeExampleTwoBranchOnTailKept();
    assert code[..7] == code;
  }

  lemma OptimizeExampleTwoBranchOnKept()
    ensures [Reg3(Add, 4, 1, 2)] + ([Reg3(Add, 3, 1, 2)] + ([Reg3(Add, 1, 1, 2)] + ([IfLtOp(2, 4), IfLtOp(2, 3), Reg3(Mul, 1, 2, 3), Reg3(Add, 0, 1, 1)])))
         == [Reg3(Add, 4, 1, 2), Reg3(Add, 3, 1, 2), Reg3(Add, 1, 1, 2), IfLtOp(2, 4), IfLtOp(2, 3), Reg3(Mul, 1, 2, 3), Reg3(Add, 0, 1, 1)]
  {
  }

  lemma OptimizeExampleTwoBranchOn(code: seq<Op>)
    requires code == TwoBranchOnCode
    ensures OptimizeSpec(code, [0], TableCorrected) == Some([Reg3(Add, 4, 1, 2), Reg3(Add, 3, 1, 2), Reg3(Add, 1, 1, 2), IfLtOp(2, 4), IfLtOp(2, 3), Reg3(Mul, 1, 2, 3), Reg3(Add, 0, 1, 1)])
  {
    StartR0();
    OptimizeExampleTwoBranchOnTail(code);
    var k3: seq<Op> := [IfLtOp(2, 4), IfLtOp(2, 3), Reg3(Mul, 1, 2, 3), Reg3(Add, 0, 1, 1)];
    OptimizeExampleTwoBranchOnStep2(code, k3);
    var k2 := [Reg3(Add, 1, 1, 2)] + k3;
    OptimizeExampleTwoBranchOnStep1(code, k2);
    var k1 := [Reg3(Add, 3, 1, 2)] + k2;
    OptimizeExampleTwoBranchOnStep0(code, k1);
    var k0 := [Reg3(Add, 4, 1, 2)] + k1;
    OptimizeExampleTwoBranchOnKept();
    assert code[..7] == code;
  }

  /** The test program `optimize_remove_last_branch`. */
  const RemoveLastBranchCode: seq<Op> := [IfLtOp(1, 2), Reg3(Mul, 1, 1, 3)]

  lemma OptimizeExampleRemoveLastBranchStep1(code: seq<Op>, kept: seq<Op>)
    requires code == RemoveLastBranchCode
    ensures Run(code[..2], Pass({0}, false, [], kept), TableCorrected)
         == Run(code[..1], Pass({0}, false, [1], kept), TableCorrected)
  {
    var p := Pass({0}, false, [], kept);
    assert StepBack(p, code[1], TableCorrected) == Some(Pass({0}, false, [1], kept)) by {
      assert code[1] == Reg3(Mul, 1, 1, 3);
      StepAssign(p, Reg3(Mul, 1, 1, 3), 1, [1, 3], TableCorrected);
      assert {0} - {1} == {0};
    }
    RunPrefix(code, 2, p, Pass({0}, false, [1], kept), TableCorrected);
  }

  lemma OptimizeExampleRemoveLastBranchStep0(code: seq<Op>, kept: seq<Op>)
    requires code == RemoveLastBranchCode
    ensures Run(code[..1], Pass({0}, false, [1], kept), TableCorrected)
         == Run(code[..0], Pass({0}, false, [], kept), TableCorrected)
  {
    var p := Pass({0}, false, [1], kept);
    assert StepBack(p, code[0], TableCorrected) == Some(Pass({0}, false, [], kept)) by {
      assert code[0] == IfLtOp(1, 2);
      StepIfLt(p, 1, 2, TableCorrected);
    }
    RunPrefix(code, 1, p, Pass({0}, false, [], kept), TableCorrected);
  }

  lemma OptimizeExampleRemoveLastBranch(code: seq<Op>)
    requires code == RemoveLastBranchCode
    ensures OptimizeSpec(code, [0], TableCorrected) == Some([])
  {
    StartR0();
    var k2: seq<Op> := [];
    OptimizeExampleRemoveLastBranchStep1(code, k2);
    var k1 := k2;
    OptimizeExampleRemoveLastBranchStep0(code, k1);
    var k0 := k1;
    assert k0 == [];
    assert code[..2] == code;
  }

  /** The test program `optimize_keep_last_branch`. */
  const KeepLastBranchCode: seq<Op> := [IfLtOp(1, 2), Reg3(Mul, 0, 1, 3)]

  lemma OptimizeExampleKeepLastBranchStep1(code: seq<Op>, kept: seq<Op>)
    requires code == KeepLastBranchCode
    ensures Run(code[..2], Pass({0}, false, [], kept), TableCorrected)
         == Run(code[..1], Pass({1, 3}, true, [0], [Reg3(Mul, 0, 1, 3)] + kept), TableCorrected)
  {
    var p := Pass({0}, false, [], kept);
    assert StepBack(p, code[1], TableCorrected) == Some(Pass({1, 3}, true, [0], [Reg3(Mul, 0, 1, 3)] + kept)) by {
      assert code[1] == Reg3(Mul, 0, 1, 3);
      StepAssign(p, Reg3(Mul, 0, 1, 3), 0, [1, 3], TableCorrected);
      assert RegSet([1, 3]) == {1, 3};
      assert {0} - {0} + {1, 3} == {1, 3};
    }
    RunPrefix(code, 2, p, Pass({1, 3}, true, [0], [Reg3(Mul, 0, 1, 3)] + kept), TableCorrected);
  }

  lemma OptimizeExampleKeepLastBranchStep0(code: seq<Op>, kept: seq<Op>)
    requires code == KeepLastBranchCode
    ensures Run(code[..1], Pass({1, 3}, true, [0], kept), TableCorrected)
         == Run(code[..0], Pass({0, 1, 2, 3}, true, [], [IfLtOp(1, 2)] + kept), TableCorrected)
  {
    var p := Pass({1, 3}, true, [0], kept);
    assert StepBack(p, code[0], TableCorrected) == Some(Pass({0, 1, 2, 3}, true, [], [IfLtOp(1, 2)] + kept)) by {
      assert code[0] == IfLtOp(1, 2);
      StepIfLt(p, 1, 2, TableCorrected);
      assert RegSet([0]) == {0};
      assert {1, 3} + {0} + {1, 2} == {0, 1, 2, 3};
    }
    RunPrefix(code, 1, p, Pass({0, 1, 2, 3}, true, [], [IfLtOp(1, 2)] + kept), TableCorrected);
  }

  lemma OptimizeExampleKeepLastBranch(code: seq<Op>)
    requires code == KeepLastBranchCode
    ensures OptimizeSpec(code, [0], TableCorrected) == Some([IfLtOp(1, 2), Reg3(Mul, 0, 1, 3)])
  {
    StartR0();
    var k2: seq<Op> := [];
    OptimizeExampleKeepLastBranchStep1(code, k2);
    var k1 := [Reg3(Mul, 0, 1, 3)] + k2;
    OptimizeExampleKeepLastBranchStep0(code, k1);
    var k0 := [IfLtOp(1, 2)] + k1;
    assert k0 == [IfLtOp(1, 2), Reg3(Mul, 0, 1, 3)];
    assert code[..2] == code;
  }
}

// The configuration of the register machine, src/evaluators/lgp/vm/cfg.rs:
// how many writable registers it has, the read-only constants placed after
// them, and the code to run. The builder methods take the configuration by
// value and hand it back, so it is a value here.
module VmCfg {
  import opened Common
  import opened VmOpcode

  datatype Cfg = Cfg(numReg: nat, constants: seq<real>, code: seq<Op>)

  /** Registers and constants together address at most 256 locations, so
    * every location has a `u8` index. */
  predicate MemFits(cfg: Cfg) {
    cfg.numReg + |cfg.constants| <= 256
  }

  /** `LgpVmCfg::new`: no registers, no constants, no code. */
  function New(): (cfg: Cfg)
    ensures MemFits(cfg) && cfg.numReg == 0 && cfg.constants == [] && cfg.code == []
  {
    Cfg(0, [], [])
  }

  /** `set_num_reg`; `None` is the failed assertion on the memory size. */
  function SetNumReg(cfg: Cfg, numReg: nat): (r: Option<Cfg>)
    ensures r.None? <==> numReg + |cfg.constants| > 256
    ensures r.Some? ==> MemFits(r.value) && r.value == cfg.(numReg := numReg)
  {
    var c := cfg.(numReg := numReg);
    if MemFits(c) then Some(c) else None
  }

  /** `set_constants`; `None` is the failed assertion on the memory size. */
  function SetConstants(cfg: Cfg, constants: seq<real>): (r: Option<Cfg>)
    ensures r.None? <==> cfg.numReg + |constants| > 256
    ensures r.Some? ==> MemFits(r.value) && r.value == cfg.(constants := constants)
  {
    var c := cfg.(constants := constants);
    if MemFits(c) then Some(c) else None
  }

  /** `set_code`: replaces the code and keeps the memory layout. */
  function SetCode(cfg: Cfg, code: seq<Op>): (r: Cfg)
    ensures r.code == code && r.numReg == cfg.numReg && r.constants == cfg.constants
    ensures MemFits(r) <==> MemFits(cfg)
  {
    cfg.(code := code)
  }

  /** However the builder calls are chained, a configuration that was built
    * without a failed assertion fits in 256 locations. */
  datatype Setter = NumReg(n: nat) | Constants(cs: seq<real>) | Code(code: seq<Op>)

  function Apply(cfg: Cfg, ss: seq<Setter>): Option<Cfg>
    decreases |ss|
  {
    if ss == [] then Some(cfg)
    else
      var next := match ss[0]
        case NumReg(n) => SetNumReg(cfg, n)
        case Constants(cs) => SetConstants(cfg, cs)
        case Code(code) => Some(SetCode(cfg, code));
      if next.None? then None else Apply(next.value, ss[1..])
  }

  lemma {:induction false} ApplyFits(cfg: Cfg, ss: seq<Setter>)
    requires MemFits(cfg)
    ensures Apply(cfg, ss).Some? ==> MemFits(Apply(cfg, ss).value)
    decreases |ss|
  {
    if ss != [] {
      match ss[0]
      case NumReg(n) =>
        if SetNumReg(cfg, n).Some? { ApplyFits(SetNumReg(cfg, n).value, ss[1..]); }
      case Constants(cs) =>
        if SetConstants(cfg, cs).Some? { ApplyFits(SetConstants(cfg, cs).value, ss[1..]); }
      case Code(code) =>
        ApplyFits(SetCode(cfg, code), ss[1..]);
    }
  }

  lemma {:induction false} BuiltFits(ss: seq<Setter>)
    ensures Apply(New(), ss).Some? ==> MemFits(Apply(New(), ss).value)
  {
    ApplyFits(New(), ss);
  }
}

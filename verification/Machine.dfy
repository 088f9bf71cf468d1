/** Registers, storage locations and the instructions the allocator rewrites. */
module Machine {
  /** Integer and floating-point registers; low numbers are physical, and the
      condition and Y registers are negative. */
  datatype Reg = R(n: int) | F(n: int)

  predicate IsPhysical(r: Reg) {
    match r
    case R(n) => n < 32
    case F(n) => n < 64
  }

  const RAT := R(16)
  const RAT2 := R(17)
  const FAT := F(0)
  const FAT2 := F(2)

  const TEMPS := {RAT, RAT2, FAT, FAT2}

  /** Registers with a fixed role, the temporaries among them. They are always
      live and never allocated. */
  const SPECIAL := {R(0), R(1), R(2), R(3), R(4), R(5), R(6), R(7), RAT, RAT2, R(14), R(15), R(30), FAT, FAT2}

  /** An instruction with what it defines and uses, and the physical registers a
      call destroys; or a register move. */
  datatype Instr =
    | Op(code: int, defs: seq<Reg>, uses: seq<Reg>, destroyed: seq<Reg>)
    | Move(src: Reg, dst: Reg)

  function Defs(i: Instr): seq<Reg> {
    match i
    case Op(_, defs, _, _) => defs
    case Move(_, dst) => [dst]
  }

  function Uses(i: Instr): seq<Reg> {
    match i
    case Op(_, _, uses, _) => uses
    case Move(src, _) => [src]
  }

  function Destroyed(i: Instr): seq<Reg> {
    match i
    case Op(_, _, _, destroyed) => destroyed
    case Move(_, _) => []
  }

  type Label = nat

  /** A basic block: its instructions in execution order, and its successors. */
  datatype Block = Block(instrs: seq<Instr>, succs: seq<Label>)

  type Cfg = map<Label, Block>

  predicate WellFormed(g: Cfg) {
    forall b, l | b in g && l in g[b].succs :: l in g
  }

  function ToSet(rs: seq<Reg>): set<Reg> { set r | r in rs }
}

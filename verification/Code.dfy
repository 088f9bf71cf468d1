/** What instructions do, before and after register allocation. Both machines keep
    their storage in cells: registers, and the slots of the procedure's frame. */
module Code {
  import opened Machine
  import opened Color

  /** The contents of a cell: a word, or the two words of a floating-point number. */
  datatype Val = Val(hi: int, lo: int)

  const ZERO := Val(0, 0)

  /** An integer cell keeps one word. */
  function Fit(float: bool, v: Val): Val { if float then v else Val(v.hi, 0) }

  function IsFloat(a: Assign): bool { if a.InReg? then a.r.F? else a.s.float }

  type Cells = map<Assign, Val>

  function Get(cells: Cells, a: Assign): Val { if a in cells then Fit(IsFloat(a), cells[a]) else ZERO }

  function Set(cells: Cells, a: Assign, v: Val): Cells { cells[a := Fit(IsFloat(a), v)] }

  /** Assigns results to registers, in order. */
  function SetAll(cells: Cells, regs: seq<Reg>, vals: seq<Val>): Cells
    decreases regs
  {
    if regs == [] then cells
    else if vals == [] then SetAll(Set(cells, InReg(regs[0]), ZERO), regs[1..], [])
    else SetAll(Set(cells, InReg(regs[0]), vals[0]), regs[1..], vals[1..])
  }

  function GetAll(cells: Cells, regs: seq<Reg>): (r: seq<Val>)
    ensures |r| == |regs| && forall k | 0 <= k < |r| :: r[k] == Get(cells, InReg(regs[k]))
  {
    seq(|regs|, k requires 0 <= k < |regs| => Get(cells, InReg(regs[k])))
  }

  /** Everything outside the frame and the registers. */
  datatype World = World(memory: map<int, int>, output: seq<int>)

  datatype State = State(world: World, cells: Cells)

  /** What an instruction does with its operands: the world after it, its results,
      and what a call leaves in the registers it destroys. */
  datatype Effect = Effect(world: World, results: seq<Val>, trash: Reg -> Val)

  /** The meaning of instruction codes, and of the branch at the end of a block. */
  datatype Semantics = Semantics(effect: (int, World, seq<Val>) -> Effect, branch: (Label, World) -> nat)

  function Trash(cells: Cells, destroyed: set<Reg>, trash: Reg -> Val): Cells {
    cells + map r | r in destroyed :: InReg(r) := Fit(r.F?, trash(r))
  }

  function RunOp(sem: Semantics, st: State, code: int, defs: seq<Reg>, uses: seq<Reg>, destroyed: seq<Reg>): State {
    var e := sem.effect(code, st.world, GetAll(st.cells, uses));
    State(e.world, SetAll(Trash(st.cells, ToSet(destroyed), e.trash), defs, e.results))
  }

  /** One instruction before allocation. */
  function RunInstr(sem: Semantics, st: State, i: Instr): State {
    match i
    case Op(code, defs, uses, destroyed) => RunOp(sem, st, code, defs, uses, destroyed)
    case Move(src, dst) => st.(cells := Set(st.cells, InReg(dst), Get(st.cells, InReg(src))))
  }

  function RunInstrs(sem: Semantics, st: State, instrs: seq<Instr>): State
    decreases instrs
  {
    if instrs == [] then st else RunInstrs(sem, RunInstr(sem, st, instrs[0]), instrs[1..])
  }

  // ---- after allocation ------------------------------------------------------

  /** Allocated code: loads and stores of slots, and instructions on registers. A
      store names a register to build the slot's address in. */
  datatype Step =
    | Pop(dst: Reg, slot: Slot)
    | Push(src: Reg, slot: Slot, tmp: Reg)
    | Do(instr: Instr)

  /** The frame: which slots lie too far for a displacement, their addresses, and
      what a floating-point register holds once it has been used for an address. */
  datatype Frame = Frame(far: Slot -> bool, address: Slot -> int, junk: Slot -> Val)

  function Next(r: Reg): Reg { R(r.n + 1) }

  /** An integer register takes a floating-point slot into itself and the next. The
      address of a far slot is built in the destination, which must be an integer
      register for that to make sense. */
  function RunPop(frame: Frame, cells: Cells, dst: Reg, slot: Slot): Cells {
    var v := Get(cells, OnStack(slot));
    if dst.F? then Set(cells, InReg(dst), if frame.far(slot) then frame.junk(slot) else v)
    else if slot.float then Set(Set(cells, InReg(Next(dst)), Val(v.lo, 0)), InReg(dst), v)
    else Set(cells, InReg(dst), v)
  }

  function RunPush(frame: Frame, cells: Cells, src: Reg, slot: Slot, tmp: Reg): Cells {
    var c := if frame.far(slot) then Set(cells, InReg(tmp), Val(frame.address(slot), 0)) else cells;
    var v := Get(c, InReg(src));
    if src.R? && slot.float then Set(c, OnStack(slot), Val(v.hi, Get(c, InReg(Next(src))).hi))
    else Set(c, OnStack(slot), v)
  }

  function RunStep(sem: Semantics, frame: Frame, st: State, s: Step): State {
    match s
    case Pop(dst, slot) => st.(cells := RunPop(frame, st.cells, dst, slot))
    case Push(src, slot, tmp) => st.(cells := RunPush(frame, st.cells, src, slot, tmp))
    case Do(i) => RunInstr(sem, st, i)
  }

  function RunSteps(sem: Semantics, frame: Frame, st: State, code: seq<Step>): State
    decreases code
  {
    if code == [] then st else RunSteps(sem, frame, RunStep(sem, frame, st, code[0]), code[1..])
  }

  lemma {:induction false} RunConcat(sem: Semantics, frame: Frame, st: State, a: seq<Step>, b: seq<Step>)
    ensures RunSteps(sem, frame, st, a + b) == RunSteps(sem, frame, RunSteps(sem, frame, st, a), b)
    decreases a
  {
    if a == [] {
      assert a + b == b;
    } else {
      assert (a + b)[0] == a[0] && (a + b)[1..] == a[1..] + b;
      RunConcat(sem, frame, RunStep(sem, frame, st, a[0]), a[1..], b);
    }
  }

  lemma {:induction false} SetAllOther(cells: Cells, regs: seq<Reg>, vals: seq<Val>, a: Assign)
    requires a.InReg? ==> a.r !in regs
    ensures Get(SetAll(cells, regs, vals), a) == Get(cells, a)
    decreases regs
  {
    if regs != [] {
      assert regs[0] in regs;
      if vals == [] {
        SetAllOther(Set(cells, InReg(regs[0]), ZERO), regs[1..], [], a);
      } else {
        SetAllOther(Set(cells, InReg(regs[0]), vals[0]), regs[1..], vals[1..], a);
      }
    }
  }

  /** A register that no later one in the list repeats gets its result. */
  lemma {:induction false} SetAllAt(cells: Cells, regs: seq<Reg>, vals: seq<Val>, k: nat)
    requires k < |regs| && forall j | k < j < |regs| :: regs[j] != regs[k]
    ensures Get(SetAll(cells, regs, vals), InReg(regs[k])) == Fit(regs[k].F?, if k < |vals| then vals[k] else ZERO)
    decreases regs
  {
    if k == 0 {
      var v := if vals == [] then ZERO else vals[0];
      var rest := if vals == [] then [] else vals[1..];
      assert forall j | 0 <= j < |regs[1..]| :: regs[1..][j] == regs[j + 1];
      SetAllOther(Set(cells, InReg(regs[0]), v), regs[1..], rest, InReg(regs[0]));
    } else if vals == [] {
      SetAllAt(Set(cells, InReg(regs[0]), ZERO), regs[1..], [], k - 1);
    } else {
      SetAllAt(Set(cells, InReg(regs[0]), vals[0]), regs[1..], vals[1..], k - 1);
    }
  }
}

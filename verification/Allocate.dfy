/** Rewriting a block to physical registers: register names are substituted, and
    spilled operands are loaded and stored through the temporaries. */
module Allocate {
  import opened Machine
  import opened Color
  import opened Code
  import opened Wrappers

  /** Where a register lives after allocation. */
  function Loc(mapping: Mapping, r: Reg): Assign {
    if !IsPhysical(r) && r in mapping then mapping[r] else InReg(r)
  }

  predicate Mapped(mapping: Mapping, r: Reg) { IsPhysical(r) || r in mapping }

  /** Temporaries still free. */
  datatype Temps = Temps(ints: seq<Reg>, floats: seq<Reg>) {
    function All(): set<Reg> { ToSet(ints) + ToSet(floats) }

    /** The first temporary of the register's kind, and what is left. */
    function Pick(r: Reg): Option<(Reg, Temps)> {
      if r.R? then (if ints == [] then None else Some((ints[0], Temps(ints[1..], floats))))
      else (if floats == [] then None else Some((floats[0], Temps(ints, floats[1..]))))
    }
  }

  function Minus(temps: seq<Reg>, regs: seq<Reg>): seq<Reg> {
    if temps == [] then []
    else if temps[0] in regs then Minus(temps[1..], regs)
    else [temps[0]] + Minus(temps[1..], regs)
  }

  /** The code that moves operands, and the register standing for each of them. */
  datatype Operands = Operands(code: seq<Step>, local: map<Reg, Reg>)

  /** Gives every operand a register: its own, or a temporary with code to load or
      store it. Fails when an operand has no place or the temporaries run out. */
  function AllocAny(mapping: Mapping, load: bool, temps: Temps, regs: seq<Reg>): Option<Operands>
    decreases regs
  {
    if regs == [] then Some(Operands([], map[]))
    else if !Mapped(mapping, regs[0]) then None
    else
      match Loc(mapping, regs[0])
      case InReg(r) =>
        (match AllocAny(mapping, load, temps, regs[1..])
         case None => None
         case Some(rest) => Some(Operands(rest.code, map[regs[0] := r] + rest.local)))
      case OnStack(slot) =>
        (match temps.Pick(regs[0])
         case None => None
         case Some((tmp, others)) =>
           match AllocAny(mapping, load, others, regs[1..])
           case None => None
           case Some(rest) =>
             var mover := if load then Pop(tmp, slot) else Push(tmp, slot, RAT2);
             Some(Operands(rest.code + [mover], map[regs[0] := tmp] + rest.local)))
  }

  function LoadTemps(uses: seq<Reg>): Temps { Temps(Minus([RAT2, RAT], uses), Minus([FAT2, FAT], uses)) }

  const STORE_TEMPS := Temps([RAT], [FAT2, FAT])

  /** Substitutes the registers standing for operands. */
  function Renamed(local: map<Reg, Reg>, regs: seq<Reg>): (r: seq<Reg>)
    requires forall x | x in regs :: x in local
    ensures |r| == |regs| && forall k | 0 <= k < |r| :: r[k] == local[regs[k]]
  {
    seq(|regs|, k requires 0 <= k < |regs| => local[regs[k]])
  }

  lemma {:induction false} AllocCovers(mapping: Mapping, load: bool, temps: Temps, regs: seq<Reg>)
    requires AllocAny(mapping, load, temps, regs).Some?
    ensures forall r | r in regs :: r in AllocAny(mapping, load, temps, regs).value.local
    decreases regs
  {
    if regs != [] {
      match Loc(mapping, regs[0])
      case InReg(r) =>
        AllocCovers(mapping, load, temps, regs[1..]);
      case OnStack(slot) =>
        AllocCovers(mapping, load, temps.Pick(regs[0]).value.1, regs[1..]);
    }
  }

  function RewriteOp(mapping: Mapping, i: Instr): Option<seq<Step>>
    requires i.Op?
  {
    match AllocAny(mapping, true, LoadTemps(i.uses), i.uses)
    case None => None
    case Some(src) =>
      match AllocAny(mapping, false, STORE_TEMPS, i.defs)
      case None => None
      case Some(dst) =>
        AllocCovers(mapping, true, LoadTemps(i.uses), i.uses);
        AllocCovers(mapping, false, STORE_TEMPS, i.defs);
        var op := Op(i.code, Renamed(dst.local, i.defs), Renamed(src.local, i.uses), i.destroyed);
        Some(src.code + [Do(op)] + dst.code)
  }

  /** Moves become register moves, loads, stores or both; a move to a register that
      has no place is dropped, and so is a move to the same register. */
  function RewriteMove(mapping: Mapping, deleteMoves: bool, src: Reg, dst: Reg): Option<seq<Step>> {
    if !Mapped(mapping, dst) then Some([])
    else if !Mapped(mapping, src) then None
    else
      match (Loc(mapping, src), Loc(mapping, dst))
      case (InReg(r), InReg(r')) => if deleteMoves && r == r' then Some([]) else Some([Do(Move(r, r'))])
      case (OnStack(l), InReg(r')) => Some([Pop(r', l)])
      case (InReg(r), OnStack(l')) => Some([Push(r, l', RAT)])
      case (OnStack(l), OnStack(l')) => Some([Pop(RAT, l), Push(RAT, l', RAT2)])
  }

  function Rewrite(mapping: Mapping, deleteMoves: bool, i: Instr): Option<seq<Step>> {
    match i
    case Op(_, _, _, _) => RewriteOp(mapping, i)
    case Move(src, dst) => RewriteMove(mapping, deleteMoves, src, dst)
  }

  function RewriteAll(mapping: Mapping, deleteMoves: bool, instrs: seq<Instr>): Option<seq<Step>>
    decreases instrs
  {
    if instrs == [] then Some([])
    else
      match Rewrite(mapping, deleteMoves, instrs[0])
      case None => None
      case Some(code) =>
        match RewriteAll(mapping, deleteMoves, instrs[1..])
        case None => None
        case Some(rest) => Some(code + rest)
  }

  // ---- when rewriting succeeds -----------------------------------------------

  function Spilled(mapping: Mapping, float: bool, regs: seq<Reg>): nat {
    if regs == [] then 0
    else (if Loc(mapping, regs[0]).OnStack? && regs[0].F? == float then 1 else 0) + Spilled(mapping, float, regs[1..])
  }

  /** Operands get registers exactly when all of them have places and no more are
      spilled than there are temporaries. */
  lemma {:induction false} AllocSucceeds(mapping: Mapping, load: bool, temps: Temps, regs: seq<Reg>)
    ensures AllocAny(mapping, load, temps, regs).Some? <==>
            && (forall r | r in regs :: Mapped(mapping, r))
            && Spilled(mapping, false, regs) <= |temps.ints| && Spilled(mapping, true, regs) <= |temps.floats|
    decreases regs
  {
    if regs != [] {
      assert regs == [regs[0]] + regs[1..];
      if Mapped(mapping, regs[0]) {
        match Loc(mapping, regs[0])
        case InReg(r) =>
          AllocSucceeds(mapping, load, temps, regs[1..]);
        case OnStack(slot) =>
          if temps.Pick(regs[0]).Some? {
            AllocSucceeds(mapping, load, temps.Pick(regs[0]).value.1, regs[1..]);
          }
      }
    }
  }

  /** An instruction has temporaries enough: two for the spilled operands of each
      kind, one for a spilled integer result, two for spilled floating-point ones. */
  predicate Rewritable(mapping: Mapping, i: Instr) {
    match i
    case Op(_, defs, uses, _) =>
      && (forall r | r in defs + uses :: Mapped(mapping, r))
      && Spilled(mapping, false, uses) <= 2 && Spilled(mapping, true, uses) <= 2
      && Spilled(mapping, false, defs) <= 1 && Spilled(mapping, true, defs) <= 2
    case Move(src, dst) => Mapped(mapping, dst) ==> Mapped(mapping, src)
  }

  lemma OpRewritable(mapping: Mapping, i: Instr)
    requires i.Op? && ToSet(i.uses) !! TEMPS
    ensures RewriteOp(mapping, i).Some? <==> Rewritable(mapping, i)
  {
    hide Mapped, Spilled, AllocAny, LoadTemps;
    AllTemps(i.uses);
    AllocSucceeds(mapping, true, LoadTemps(i.uses), i.uses);
    AllocSucceeds(mapping, false, STORE_TEMPS, i.defs);
  }

  /** Code is produced exactly when every instruction has temporaries enough. */
  lemma {:induction false} RewriteSucceeds(mapping: Mapping, deleteMoves: bool, instrs: seq<Instr>)
    requires forall i | i in instrs :: ToSet(Uses(i)) !! TEMPS
    ensures RewriteAll(mapping, deleteMoves, instrs).Some? <==> forall i | i in instrs :: Rewritable(mapping, i)
    decreases instrs
  {
    hide Mapped, Spilled, AllocAny, LoadTemps, RewriteOp;
    if instrs != [] {
      var i := instrs[0];
      assert instrs == [i] + instrs[1..];
      RewriteSucceeds(mapping, deleteMoves, instrs[1..]);
      if i.Op? {
        assert i in instrs && ToSet(Uses(i)) !! TEMPS;
        hide ToSet;
        OpRewritable(mapping, i);
      } else {
        assert Rewrite(mapping, deleteMoves, i).Some? <==> Rewritable(mapping, i);
      }
      assert forall j :: j in instrs <==> j == i || j in instrs[1..];
    }
  }

  function AllSpilled(mapping: Mapping, regs: seq<Reg>): nat {
    Spilled(mapping, false, regs) + Spilled(mapping, true, regs)
  }

  lemma {:induction false} OneMoverEach(mapping: Mapping, load: bool, temps: Temps, regs: seq<Reg>)
    requires AllocAny(mapping, load, temps, regs).Some?
    ensures var code := AllocAny(mapping, load, temps, regs).value.code;
            |code| == AllSpilled(mapping, regs) && forall s | s in code :: !s.Do?
    decreases regs
  {
    if regs != [] {
      match Loc(mapping, regs[0])
      case InReg(r) => OneMoverEach(mapping, load, temps, regs[1..]);
      case OnStack(slot) => OneMoverEach(mapping, load, temps.Pick(regs[0]).value.1, regs[1..]);
    }
  }

  /** How many steps an instruction needs: itself and one for each spilled operand; a
      move none if its destination has no place, or is its source and idle moves go. */
  function Cost(mapping: Mapping, deleteMoves: bool, i: Instr): nat {
    match i
    case Op(_, defs, uses, _) => 1 + AllSpilled(mapping, uses) + AllSpilled(mapping, defs)
    case Move(src, dst) =>
      if !Mapped(mapping, dst) then 0
      else if Loc(mapping, src).OnStack? && Loc(mapping, dst).OnStack? then 2
      else if deleteMoves && Loc(mapping, src) == Loc(mapping, dst) then 0
      else 1
  }

  function TotalCost(mapping: Mapping, deleteMoves: bool, instrs: seq<Instr>): nat {
    if instrs == [] then 0
    else Cost(mapping, deleteMoves, instrs[0]) + TotalCost(mapping, deleteMoves, instrs[1..])
  }

  /** A move of a register to itself. */
  predicate Idle(s: Step) { s.Do? && s.instr.Move? && s.instr.src == s.instr.dst }

  lemma OneCost(mapping: Mapping, deleteMoves: bool, i: Instr)
    requires Rewrite(mapping, deleteMoves, i).Some?
    ensures var code := Rewrite(mapping, deleteMoves, i).value;
            |code| == Cost(mapping, deleteMoves, i) && (deleteMoves ==> forall s | s in code :: !Idle(s))
  {
    if i.Op? {
      OneMoverEach(mapping, true, LoadTemps(i.uses), i.uses);
      OneMoverEach(mapping, false, STORE_TEMPS, i.defs);
      hide AllocAny, AllSpilled;
    }
  }

  /** The code is as short as the places allow, and has no idle moves if they are to go. */
  lemma {:induction false} CodeSize(mapping: Mapping, deleteMoves: bool, instrs: seq<Instr>)
    requires RewriteAll(mapping, deleteMoves, instrs).Some?
    ensures var code := RewriteAll(mapping, deleteMoves, instrs).value;
            && |code| == TotalCost(mapping, deleteMoves, instrs)
            && (deleteMoves ==> forall s | s in code :: !Idle(s))
    decreases instrs
  {
    if instrs != [] {
      OneCost(mapping, deleteMoves, instrs[0]);
      CodeSize(mapping, deleteMoves, instrs[1..]);
      hide Rewrite, Cost, Idle;
    }
  }

  lemma AllTemps(uses: seq<Reg>)
    requires ToSet(uses) !! TEMPS
    ensures LoadTemps(uses) == Temps([RAT2, RAT], [FAT2, FAT])
  {
    assert forall t | t in TEMPS :: t !in ToSet(uses);
    MinusTwo(RAT2, RAT, uses);
    MinusTwo(FAT2, FAT, uses);
  }

  // ---- what allocation keeps ---------------------------------------------------

  /** Pseudo-registers are in general registers or slots of their own kind. */
  ghost predicate Sound(mapping: Mapping) {
    forall a | a in mapping && !IsPhysical(a) ::
      match mapping[a]
      case InReg(r) => IsPhysical(r) && r !in SPECIAL && r.F? == a.F?
      case OnStack(s) => s.float == a.F?
  }

  /** What the rewriting takes for granted of an instruction. */
  predicate Allocatable(i: Instr) {
    && ToSet(Defs(i)) !! TEMPS && ToSet(Uses(i)) !! TEMPS
    && (forall j, k | 0 <= j < k < |Defs(i)| :: Defs(i)[j] != Defs(i)[k])
    && (forall r | r in Destroyed(i) :: IsPhysical(r))
    && (i.Move? ==> i.src.F? == i.dst.F?)
  }

  /** Temporaries of the right kinds, all different. */
  predicate GoodTemps(temps: Temps) {
    && temps.All() <= TEMPS
    && (forall r | r in temps.ints :: r.R?) && (forall r | r in temps.floats :: r.F?)
    && (forall j, k | 0 <= j < k < |temps.ints| :: temps.ints[j] != temps.ints[k])
    && (forall j, k | 0 <= j < k < |temps.floats| :: temps.floats[j] != temps.floats[k])
  }

  lemma PickGood(temps: Temps, r: Reg)
    requires GoodTemps(temps) && temps.Pick(r).Some?
    ensures var (tmp, rest) := temps.Pick(r).value;
            && tmp in temps.All() && tmp in TEMPS && tmp.F? == r.F?
            && GoodTemps(rest) && rest.All() <= temps.All() && tmp !in rest.All()
  {
    var (tmp, rest) := temps.Pick(r).value;
    if r.R? {
      assert temps.ints == [tmp] + rest.ints;
    } else {
      assert temps.floats == [tmp] + rest.floats;
    }
  }

  lemma StartGood(uses: seq<Reg>)
    ensures GoodTemps(STORE_TEMPS) && RAT2 !in STORE_TEMPS.All()
    ensures GoodTemps(LoadTemps(uses))
  {
    MinusTwo(RAT2, RAT, uses);
    MinusTwo(FAT2, FAT, uses);
  }

  lemma {:induction false} MinusTwo(a: Reg, b: Reg, uses: seq<Reg>)
    ensures Minus([a, b], uses) == (if a in uses then [] else [a]) + (if b in uses then [] else [b])
  {
    assert Minus([b], uses) == if b in uses then [] else [b];
    assert [a, b][1..] == [b];
  }

  /** An operand's register is its own or a temporary of its kind. */
  predicate StandsFor(mapping: Mapping, local: map<Reg, Reg>, temps: Temps, r: Reg) {
    && r in local && local[r].F? == r.F?
    && if Loc(mapping, r).InReg? then Loc(mapping, r) == InReg(local[r]) && local[r] !in TEMPS
       else local[r] in temps.All()
  }

  lemma LocKind(mapping: Mapping, r: Reg)
    requires Sound(mapping)
    ensures IsFloat(Loc(mapping, r)) == r.F?
    ensures r !in TEMPS && Loc(mapping, r).InReg? ==> Loc(mapping, r).r !in TEMPS
  {}

  /** What the operands' registers are like. */
  ghost predicate Stands(mapping: Mapping, local: map<Reg, Reg>, temps: Temps, regs: seq<Reg>) {
    && local.Keys == ToSet(regs)
    && (forall r | r in regs :: StandsFor(mapping, local, temps, r))
    && (forall d, e | d in regs && e in regs && d != e && Loc(mapping, d).OnStack? && Loc(mapping, e).OnStack? ::
          local[d] != local[e])
  }

  lemma StandsStep(mapping: Mapping, local: map<Reg, Reg>, temps: Temps, rest: Temps, regs: seq<Reg>, r: Reg)
    requires regs != [] && Stands(mapping, local, rest, regs[1..])
    requires rest.All() <= temps.All() && StandsFor(mapping, map[regs[0] := r], temps, regs[0])
    requires Loc(mapping, regs[0]).OnStack? ==> r !in rest.All()
    ensures Stands(mapping, map[regs[0] := r] + local, temps, regs)
  {
    hide Loc;
    assert regs == [regs[0]] + regs[1..];
    var all := map[regs[0] := r] + local;
    forall d | d in regs
      ensures StandsFor(mapping, all, temps, d)
    {
      if d in regs[1..] {
        assert StandsFor(mapping, local, rest, d);
      }
    }
    forall d, e | d in regs && e in regs && d != e && Loc(mapping, d).OnStack? && Loc(mapping, e).OnStack?
      ensures all[d] != all[e]
    {
      assert d in regs[1..] ==> StandsFor(mapping, local, rest, d);
      assert e in regs[1..] ==> StandsFor(mapping, local, rest, e);
    }
  }

  /** What the registers chosen for operands stand for. */
  lemma {:induction false} AllocGives(mapping: Mapping, load: bool, temps: Temps, regs: seq<Reg>)
    requires Sound(mapping) && GoodTemps(temps) && ToSet(regs) !! TEMPS
    requires AllocAny(mapping, load, temps, regs).Some?
    ensures Stands(mapping, AllocAny(mapping, load, temps, regs).value.local, temps, regs)
    decreases regs
  {
    hide GoodTemps, Sound, Stands, temps.All, temps.Pick;
    if regs == [] {
      assert Stands(mapping, map[], temps, []) by { NothingStands(mapping, temps); }
    } else {
      assert regs[0] in ToSet(regs);
      RestApart(regs);
      LocKind(mapping, regs[0]);
      match Loc(mapping, regs[0])
      case InReg(r) =>
        AllocGives(mapping, load, temps, regs[1..]);
        StandsStep(mapping, AllocAny(mapping, load, temps, regs[1..]).value.local, temps, temps, regs, r);
      case OnStack(slot) =>
        PickGood(temps, regs[0]);
        var (tmp, rest) := temps.Pick(regs[0]).value;
        AllocGives(mapping, load, rest, regs[1..]);
        StandsStep(mapping, AllocAny(mapping, load, rest, regs[1..]).value.local, temps, rest, regs, tmp);
    }
  }

  lemma NothingStands(mapping: Mapping, temps: Temps)
    ensures Stands(mapping, map[], temps, [])
  {}

  lemma RestApart(regs: seq<Reg>)
    requires regs != [] && ToSet(regs) !! TEMPS
    ensures ToSet(regs[1..]) !! TEMPS && regs[0] !in TEMPS
  {
    assert regs[0] in ToSet(regs);
    assert ToSet(regs[1..]) <= ToSet(regs);
  }
}

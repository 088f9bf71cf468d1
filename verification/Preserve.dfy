/** Register allocation preserves meaning: from an instruction to whole runs. */
module Preserve {
  import opened Machine
  import opened Liveness
  import opened Color
  import opened Code
  import opened Allocate
  import opened Wrappers

  /** The slots of spilled floating-point registers are within reach of a
      displacement. */
  ghost predicate FloatsNear(frame: Frame, mapping: Mapping) {
    forall a | a in mapping && !IsPhysical(a) && mapping[a].OnStack? && mapping[a].s.float :: !frame.far(mapping[a].s)
  }

  lemma SlotNear(frame: Frame, mapping: Mapping, r: Reg)
    requires FloatsNear(frame, mapping) && Loc(mapping, r).OnStack?
    ensures Loc(mapping, r).s.float ==> !frame.far(Loc(mapping, r).s)
  {}

  // ---- operands ------------------------------------------------------------------

  predicate IsTemp(temps: Temps, a: Assign) { a.InReg? && a.r in temps.All() }

  /** A load delivers the slot's value exactly when it has no far floating-point
      slot to fetch from, or by chance finds the value there already. */
  lemma PopExact(frame: Frame, cells: Cells, tmp: Reg, slot: Slot)
    requires slot.float == tmp.F?
    ensures Get(RunPop(frame, cells, tmp, slot), InReg(tmp)) == Get(cells, OnStack(slot))
            <==> (slot.float && frame.far(slot) ==> Get(cells, OnStack(slot)) == frame.junk(slot))
    ensures forall a: Assign | a != InReg(tmp) :: Get(RunPop(frame, cells, tmp, slot), a) == Get(cells, a)
  {}

  lemma PushGives(frame: Frame, cells: Cells, src: Reg, slot: Slot, tmp: Reg)
    requires slot.float == src.F? && src != tmp
    ensures Get(RunPush(frame, cells, src, slot, tmp), OnStack(slot)) == Get(cells, InReg(src))
    ensures forall a: Assign | a != InReg(tmp) && a != OnStack(slot) ::
              Get(RunPush(frame, cells, src, slot, tmp), a) == Get(cells, a)
  {}

  /** The loads before an instruction touch only temporaries. */
  lemma {:induction false} LoadsKeep(sem: Semantics, frame: Frame, mapping: Mapping, temps: Temps, regs: seq<Reg>,
                                     st: State, a: Assign)
    requires Sound(mapping) && GoodTemps(temps) && ToSet(regs) !! TEMPS && FloatsNear(frame, mapping)
    requires AllocAny(mapping, true, temps, regs).Some? && !IsTemp(temps, a)
    ensures var now := RunSteps(sem, frame, st, AllocAny(mapping, true, temps, regs).value.code);
            now.world == st.world && Get(now.cells, a) == Get(st.cells, a)
    decreases regs
  {
    hide GoodTemps, Sound, Get, temps.All, temps.Pick, RunPop, Loc;
    if regs != [] {
      RestApart(regs);
      LocKind(mapping, regs[0]);
      match Loc(mapping, regs[0])
      case InReg(r) =>
        LoadsKeep(sem, frame, mapping, temps, regs[1..], st, a);
      case OnStack(slot) =>
        PickGood(temps, regs[0]);
        var (tmp, rest) := temps.Pick(regs[0]).value;
        LoadsKeep(sem, frame, mapping, rest, regs[1..], st, a);
        var code := AllocAny(mapping, true, rest, regs[1..]).value.code;
        RunConcat(sem, frame, st, code, [Pop(tmp, slot)]);
        SlotNear(frame, mapping, regs[0]);
        PopExact(frame, RunSteps(sem, frame, st, code).cells, tmp, slot);
    }
  }

  /** After the loads, the register standing for an operand holds its value. */
  lemma {:induction false} LoadsGive(sem: Semantics, frame: Frame, mapping: Mapping, temps: Temps, regs: seq<Reg>,
                                     st: State, r: Reg)
    requires Sound(mapping) && GoodTemps(temps) && ToSet(regs) !! TEMPS && FloatsNear(frame, mapping)
    requires AllocAny(mapping, true, temps, regs).Some? && r in regs
    ensures var all := AllocAny(mapping, true, temps, regs).value;
            && r in all.local
            && Get(RunSteps(sem, frame, st, all.code).cells, InReg(all.local[r])) == Get(st.cells, Loc(mapping, r))
    decreases regs
  {
    hide GoodTemps, Sound, Get, temps.All, temps.Pick, RunPop, Loc, Stands;
    AllocGives(mapping, true, temps, regs);
    var all := AllocAny(mapping, true, temps, regs).value;
    assert StandsFor(mapping, all.local, temps, r) by { StandsAt(mapping, all.local, temps, regs, r); }
    RestApart(regs);
    LocKind(mapping, regs[0]);
    assert regs == [regs[0]] + regs[1..];
    match Loc(mapping, regs[0]) {
      case InReg(p) =>
        AllocCovers(mapping, true, temps, regs[1..]);
        if r in regs[1..] {
          LoadsGive(sem, frame, mapping, temps, regs[1..], st, r);
        } else {
          FirstLocal(mapping, true, temps, regs, p);
          NotTemp(temps, InReg(p));
          LoadsKeep(sem, frame, mapping, temps, regs[1..], st, InReg(p));
        }
      case OnStack(slot) =>
        PickGood(temps, regs[0]);
        var (tmp, others) := temps.Pick(regs[0]).value;
        var rest := AllocAny(mapping, true, others, regs[1..]).value;
        var mid := RunSteps(sem, frame, st, rest.code);
        RunConcat(sem, frame, st, rest.code, [Pop(tmp, slot)]);
        SlotNear(frame, mapping, regs[0]);
        PopExact(frame, mid.cells, tmp, slot);
        if r in regs[1..] {
          LoadsGive(sem, frame, mapping, others, regs[1..], st, r);
          AllocGives(mapping, true, others, regs[1..]);
          StandsAt(mapping, rest.local, others, regs[1..], r);
        } else {
          FirstTemp(mapping, true, temps, regs, slot);
          LoadsKeep(sem, frame, mapping, others, regs[1..], st, OnStack(slot));
        }
    }
  }

  lemma StandsAt(mapping: Mapping, local: map<Reg, Reg>, temps: Temps, regs: seq<Reg>, r: Reg)
    requires Stands(mapping, local, temps, regs) && r in regs
    ensures StandsFor(mapping, local, temps, r)
  {}

  lemma NotTemp(temps: Temps, a: Assign)
    requires GoodTemps(temps) && (a.InReg? ==> a.r !in TEMPS)
    ensures !IsTemp(temps, a)
  {}

  lemma {:induction false} FirstLocal(mapping: Mapping, load: bool, temps: Temps, regs: seq<Reg>, p: Reg)
    requires regs != [] && AllocAny(mapping, load, temps, regs).Some? && Loc(mapping, regs[0]) == InReg(p)
    requires Sound(mapping) && GoodTemps(temps) && ToSet(regs) !! TEMPS && regs[0] !in regs[1..]
    ensures regs[0] in AllocAny(mapping, load, temps, regs).value.local
    ensures AllocAny(mapping, load, temps, regs).value.local[regs[0]] == p
  {
    hide Stands, GoodTemps, Sound, Loc;
    AllocGives(mapping, load, temps, regs);
    StandsAt(mapping, AllocAny(mapping, load, temps, regs).value.local, temps, regs, regs[0]);
  }

  lemma {:induction false} FirstTemp(mapping: Mapping, load: bool, temps: Temps, regs: seq<Reg>, slot: Slot)
    requires regs != [] && AllocAny(mapping, load, temps, regs).Some? && Loc(mapping, regs[0]) == OnStack(slot)
    requires Sound(mapping) && GoodTemps(temps) && ToSet(regs) !! TEMPS && regs[0] !in regs[1..]
    ensures regs[0] in AllocAny(mapping, load, temps, regs).value.local
    ensures AllocAny(mapping, load, temps, regs).value.local[regs[0]] == temps.Pick(regs[0]).value.0
  {
    hide GoodTemps, Sound, Loc, temps.Pick, temps.All;
    PickGood(temps, regs[0]);
    var (tmp, others) := temps.Pick(regs[0]).value;
    RestApart(regs);
    AllocGives(mapping, load, others, regs[1..]);
    assert regs[0] !in AllocAny(mapping, load, others, regs[1..]).value.local;
  }

  /** The stores after an instruction write the slots of its results and the
      register used for addresses. */
  lemma {:induction false} StoresKeep(sem: Semantics, frame: Frame, mapping: Mapping, temps: Temps, regs: seq<Reg>,
                                      st: State, a: Assign)
    requires Sound(mapping) && GoodTemps(temps) && RAT2 !in temps.All() && ToSet(regs) !! TEMPS
    requires AllocAny(mapping, false, temps, regs).Some?
    requires a != InReg(RAT2) && forall r | r in regs :: Loc(mapping, r).OnStack? ==> Loc(mapping, r) != a
    ensures var now := RunSteps(sem, frame, st, AllocAny(mapping, false, temps, regs).value.code);
            now.world == st.world && Get(now.cells, a) == Get(st.cells, a)
    decreases regs
  {
    hide GoodTemps, Sound, Get, temps.All, temps.Pick, RunPush, Loc;
    if regs != [] {
      RestApart(regs);
      LocKind(mapping, regs[0]);
      assert regs[0] in regs;
      match Loc(mapping, regs[0])
      case InReg(r) =>
        StoresKeep(sem, frame, mapping, temps, regs[1..], st, a);
      case OnStack(slot) =>
        PickGood(temps, regs[0]);
        var (tmp, rest) := temps.Pick(regs[0]).value;
        StoresKeep(sem, frame, mapping, rest, regs[1..], st, a);
        var code := AllocAny(mapping, false, rest, regs[1..]).value.code;
        RunConcat(sem, frame, st, code, [Push(tmp, slot, RAT2)]);
        PushGives(frame, RunSteps(sem, frame, st, code).cells, tmp, slot, RAT2);
    }
  }

  /** A spilled result whose place no other result shares reaches its slot. */
  lemma {:induction false} StoresGive(sem: Semantics, frame: Frame, mapping: Mapping, temps: Temps, regs: seq<Reg>,
                                      st: State, r: Reg)
    requires Sound(mapping) && GoodTemps(temps) && RAT2 !in temps.All() && ToSet(regs) !! TEMPS
    requires AllocAny(mapping, false, temps, regs).Some? && r in regs && Loc(mapping, r).OnStack?
    requires forall j, k | 0 <= j < k < |regs| :: regs[j] != regs[k]
    requires forall d | d in regs && d != r :: Loc(mapping, d) != Loc(mapping, r)
    ensures var all := AllocAny(mapping, false, temps, regs).value;
            && r in all.local
            && Get(RunSteps(sem, frame, st, all.code).cells, Loc(mapping, r)) == Get(st.cells, InReg(all.local[r]))
    decreases regs
  {
    hide GoodTemps, Sound, Get, temps.All, temps.Pick, RunPush, Loc, Stands;
    RestApart(regs);
    LocKind(mapping, regs[0]);
    assert regs == [regs[0]] + regs[1..];
    assert regs[0] !in regs[1..];
    match Loc(mapping, regs[0]) {
      case InReg(p) =>
        StoresGive(sem, frame, mapping, temps, regs[1..], st, r);
      case OnStack(slot) =>
        PickGood(temps, regs[0]);
        var (tmp, others) := temps.Pick(regs[0]).value;
        var rest := AllocAny(mapping, false, others, regs[1..]).value;
        var mid := RunSteps(sem, frame, st, rest.code);
        RunConcat(sem, frame, st, rest.code, [Push(tmp, slot, RAT2)]);
        PushGives(frame, mid.cells, tmp, slot, RAT2);
        if r == regs[0] {
          FirstTemp(mapping, false, temps, regs, slot);
          StoresKeep(sem, frame, mapping, others, regs[1..], st, InReg(tmp));
        } else {
          StoresGive(sem, frame, mapping, others, regs[1..], st, r);
        }
    }
  }

  // ---- instructions ----------------------------------------------------------------

  /** Registers whose values count: the live ones, and those with a fixed role
      other than the temporaries. */
  function Watched(live: set<Reg>): set<Reg> { live + (SPECIAL - TEMPS) }

  /** The two machines agree on the world and on what counts. */
  ghost predicate Agree(mapping: Mapping, live: set<Reg>, src: State, tgt: State) {
    && src.world == tgt.world
    && forall r | r in Watched(live) :: Get(tgt.cells, Loc(mapping, r)) == Get(src.cells, InReg(r))
  }

  /** What an instruction writes has a place apart from everything live after it. */
  ghost predicate NoClash(mapping: Mapping, i: Instr, live: set<Reg>) {
    forall d, r | (d in Defs(i) || d in Destroyed(i)) && r in live && d != r :: Loc(mapping, d) != Loc(mapping, r)
  }

  lemma WatchedApart(mapping: Mapping, i: Instr, live: set<Reg>, d: Reg, r: Reg)
    requires Sound(mapping) && NoClash(mapping, i, live)
    requires (d in Defs(i) || d in Destroyed(i)) && r in Watched(live) && d != r
    ensures Loc(mapping, d) != Loc(mapping, r)
  {}

  lemma UsesWatched(i: Instr, live: set<Reg>, u: Reg)
    requires u in Uses(i) && u !in TEMPS
    ensures u in Watched(Before(i, live))
  {}

  lemma OthersWatched(i: Instr, live: set<Reg>, r: Reg)
    requires r in Watched(live) && r !in Defs(i)
    ensures r in Watched(Before(i, live))
  {}

  lemma WatchedNotTemp(live: set<Reg>, r: Reg)
    requires r in Watched(live) && live !! TEMPS
    ensures r !in TEMPS
  {}

  lemma AgreeAt(mapping: Mapping, live: set<Reg>, src: State, tgt: State, r: Reg)
    requires Agree(mapping, live, src, tgt) && r in Watched(live)
    ensures Get(tgt.cells, Loc(mapping, r)) == Get(src.cells, InReg(r))
  {}

  /** The operands of the rewritten instruction have the values of the original's. */
  lemma {:induction false} SameOperands(sem: Semantics, frame: Frame, mapping: Mapping, i: Instr, live: set<Reg>,
                                        src: State, tgt: State)
    requires Sound(mapping) && FloatsNear(frame, mapping) && i.Op? && ToSet(i.uses) !! TEMPS
    requires AllocAny(mapping, true, LoadTemps(i.uses), i.uses).Some?
    requires Agree(mapping, Before(i, live), src, tgt)
    ensures var loads := AllocAny(mapping, true, LoadTemps(i.uses), i.uses).value;
            var mid := RunSteps(sem, frame, tgt, loads.code);
            && (forall r | r in i.uses :: r in loads.local)
            && mid.world == src.world
            && GetAll(mid.cells, Renamed(loads.local, i.uses)) == GetAll(src.cells, i.uses)
  {
    hide Sound, Agree, Get, Loc, GoodTemps, RunSteps, LoadTemps, Watched, Before, AllocAny;
    StartGood(i.uses);
    var temps := LoadTemps(i.uses);
    AllocCovers(mapping, true, temps, i.uses);
    var loads := AllocAny(mapping, true, temps, i.uses).value;
    var mid := RunSteps(sem, frame, tgt, loads.code);
    WorldAgrees(mapping, Before(i, live), src, tgt);
    LoadsKeep(sem, frame, mapping, temps, i.uses, tgt, OnStack(Slot(false, 0)));
    forall k | 0 <= k < |i.uses|
      ensures Get(mid.cells, InReg(loads.local[i.uses[k]])) == Get(src.cells, InReg(i.uses[k]))
    {
      var u := i.uses[k];
      assert u in ToSet(i.uses);
      LoadsGive(sem, frame, mapping, temps, i.uses, tgt, u);
      UsesWatched(i, live, u);
      AgreeAt(mapping, Before(i, live), src, tgt, u);
    }
  }

  lemma WorldAgrees(mapping: Mapping, live: set<Reg>, src: State, tgt: State)
    requires Agree(mapping, live, src, tgt)
    ensures src.world == tgt.world
  {}

  /** The register standing for a result stands for no other. */
  lemma LocalApart(mapping: Mapping, local: map<Reg, Reg>, temps: Temps, regs: seq<Reg>, d: Reg, r: Reg)
    requires Stands(mapping, local, temps, regs) && GoodTemps(temps)
    requires d in regs && r in regs && d != r && Loc(mapping, d) != Loc(mapping, r)
    ensures d in local && r in local && local[d] != local[r]
  {
    hide Loc;
    assert StandsFor(mapping, local, temps, d) && StandsFor(mapping, local, temps, r);
  }

  /** A result no other result shares a place with is in that place at the end. */
  lemma {:induction false} ResultArrives(sem: Semantics, frame: Frame, mapping: Mapping, regs: seq<Reg>, cells: Cells,
                                         vals: seq<Val>, world: World, k: nat)
    requires Sound(mapping) && ToSet(regs) !! TEMPS && AllocAny(mapping, false, STORE_TEMPS, regs).Some? && k < |regs|
    requires forall j, k | 0 <= j < k < |regs| :: regs[j] != regs[k]
    requires forall d | d in regs && d != regs[k] :: Loc(mapping, d) != Loc(mapping, regs[k])
    ensures var stores := AllocAny(mapping, false, STORE_TEMPS, regs).value;
            && (forall r | r in regs :: r in stores.local)
            && var done := RunSteps(sem, frame, State(world, SetAll(cells, Renamed(stores.local, regs), vals)),
                                    stores.code);
               Get(done.cells, Loc(mapping, regs[k])) == Fit(regs[k].F?, if k < |vals| then vals[k] else ZERO)
  {
    hide Sound, Get, Loc, GoodTemps, RunSteps, AllocAny, SetAll, Stands, Fit;
    StartGood([]);
    var temps := STORE_TEMPS;
    var r := regs[k];
    AllocGives(mapping, false, temps, regs);
    AllocCovers(mapping, false, temps, regs);
    var stores := AllocAny(mapping, false, temps, regs).value;
    StandsAt(mapping, stores.local, temps, regs, r);
    var renamed := Renamed(stores.local, regs);
    forall j | k < j < |regs|
      ensures renamed[j] != renamed[k]
    {
      LocalApart(mapping, stores.local, temps, regs, regs[j], r);
    }
    SetAllAt(cells, renamed, vals, k);
    var st := State(world, SetAll(cells, renamed, vals));
    assert r in ToSet(regs);
    if Loc(mapping, r).OnStack? {
      StoresGive(sem, frame, mapping, temps, regs, st, r);
    } else {
      StoresKeep(sem, frame, mapping, temps, regs, st, Loc(mapping, r));
    }
  }

  /** A place that no result has is as the instruction found it. */
  lemma {:induction false} OtherStays(sem: Semantics, frame: Frame, mapping: Mapping, regs: seq<Reg>, cells: Cells,
                                      vals: seq<Val>, world: World, a: Assign)
    requires Sound(mapping) && ToSet(regs) !! TEMPS && AllocAny(mapping, false, STORE_TEMPS, regs).Some?
    requires a.InReg? ==> a.r !in TEMPS
    requires forall d | d in regs :: Loc(mapping, d) != a
    ensures var stores := AllocAny(mapping, false, STORE_TEMPS, regs).value;
            && (forall r | r in regs :: r in stores.local)
            && var done := RunSteps(sem, frame, State(world, SetAll(cells, Renamed(stores.local, regs), vals)),
                                    stores.code);
               done.world == world && Get(done.cells, a) == Get(cells, a)
  {
    hide Sound, Get, Loc, RunSteps, AllocAny, SetAll, Stands;
    StartGood([]);
    var temps := STORE_TEMPS;
    AllocGives(mapping, false, temps, regs);
    AllocCovers(mapping, false, temps, regs);
    var stores := AllocAny(mapping, false, temps, regs).value;
    var renamed := Renamed(stores.local, regs);
    forall k | 0 <= k < |regs|
      ensures a.InReg? ==> a.r != renamed[k]
    {
      StandsAt(mapping, stores.local, temps, regs, regs[k]);
    }
    SetAllOther(cells, renamed, vals, a);
    StoresKeep(sem, frame, mapping, temps, regs, State(world, SetAll(cells, renamed, vals)), a);
  }

  lemma TrashOther(cells: Cells, destroyed: set<Reg>, trash: Reg -> Val, a: Assign)
    ensures Get(Trash(cells, destroyed, trash), a)
         == if a.InReg? && a.r in destroyed then Fit(a.r.F?, trash(a.r)) else Get(cells, a)
  {}

  /** The run of a rewritten instruction, in three parts. */
  lemma {:induction false} ThreeParts(sem: Semantics, frame: Frame, mapping: Mapping, i: Instr, tgt: State)
    requires i.Op? && RewriteOp(mapping, i).Some?
    ensures var loads := AllocAny(mapping, true, LoadTemps(i.uses), i.uses).value;
            var stores := AllocAny(mapping, false, STORE_TEMPS, i.defs).value;
            && (forall r | r in i.uses :: r in loads.local) && (forall r | r in i.defs :: r in stores.local)
            && var mid := RunSteps(sem, frame, tgt, loads.code);
               RunSteps(sem, frame, tgt, RewriteOp(mapping, i).value)
               == RunSteps(sem, frame,
                           RunOp(sem, mid, i.code, Renamed(stores.local, i.defs), Renamed(loads.local, i.uses),
                                 i.destroyed),
                           stores.code)
  {
    hide RunOp, LoadTemps, AllocAny;
    AllocCovers(mapping, true, LoadTemps(i.uses), i.uses);
    AllocCovers(mapping, false, STORE_TEMPS, i.defs);
    var loads := AllocAny(mapping, true, LoadTemps(i.uses), i.uses).value;
    var stores := AllocAny(mapping, false, STORE_TEMPS, i.defs).value;
    var op := Do(Op(i.code, Renamed(stores.local, i.defs), Renamed(loads.local, i.uses), i.destroyed));
    RunConcat(sem, frame, tgt, loads.code + [op], stores.code);
    RunConcat(sem, frame, tgt, loads.code, [op]);
  }

  /** Loads and stores leave the world alone. */
  lemma {:induction false} AllocWorld(sem: Semantics, frame: Frame, mapping: Mapping, load: bool, temps: Temps,
                                      regs: seq<Reg>, st: State)
    requires AllocAny(mapping, load, temps, regs).Some?
    ensures RunSteps(sem, frame, st, AllocAny(mapping, load, temps, regs).value.code).world == st.world
    decreases regs
  {
    hide RunPop, RunPush, Loc, temps.Pick;
    if regs != [] {
      match Loc(mapping, regs[0])
      case InReg(r) =>
        AllocWorld(sem, frame, mapping, load, temps, regs[1..], st);
      case OnStack(slot) =>
        var (tmp, rest) := temps.Pick(regs[0]).value;
        AllocWorld(sem, frame, mapping, load, rest, regs[1..], st);
        var code := AllocAny(mapping, load, rest, regs[1..]).value.code;
        RunConcat(sem, frame, st, code, [if load then Pop(tmp, slot) else Push(tmp, slot, RAT2)]);
    }
  }

  /** A register that is not a result has, before the results are stored, the value
      it has in the original: its old one, or what the call left in it. */
  lemma {:induction false} TrashSame(sem: Semantics, frame: Frame, mapping: Mapping, i: Instr, live: set<Reg>,
                                     src: State, tgt: State, trash: Reg -> Val, r: Reg)
    requires Sound(mapping) && FloatsNear(frame, mapping) && i.Op? && Allocatable(i) && NoClash(mapping, i, live)
    requires live !! TEMPS
    requires AllocAny(mapping, true, LoadTemps(i.uses), i.uses).Some?
    requires Agree(mapping, Before(i, live), src, tgt) && r in Watched(live) && r !in i.defs
    ensures var mid := RunSteps(sem, frame, tgt, AllocAny(mapping, true, LoadTemps(i.uses), i.uses).value.code);
            Get(Trash(mid.cells, ToSet(i.destroyed), trash), Loc(mapping, r))
            == Get(Trash(src.cells, ToSet(i.destroyed), trash), InReg(r))
  {
    hide Sound, Agree, Get, RunSteps, AllocAny, Watched, Before, NoClash, Fit, Trash, LoadTemps, Loc;
    var loads := AllocAny(mapping, true, LoadTemps(i.uses), i.uses).value;
    var mid := RunSteps(sem, frame, tgt, loads.code);
    var a := Loc(mapping, r);
    TrashOther(mid.cells, ToSet(i.destroyed), trash, a);
    TrashOther(src.cells, ToSet(i.destroyed), trash, InReg(r));
    if r in i.destroyed {
      assert a == InReg(r) by { LocPhysical(mapping, r); }
    } else {
      if a.InReg? && a.r in i.destroyed {
        LocPhysical(mapping, a.r);
        WatchedApart(mapping, i, live, a.r, r);
      }
      WatchedNotTemp(live, r);
      LocKind(mapping, r);
      StartGood(i.uses);
      NotTemp(LoadTemps(i.uses), a);
      LoadsKeep(sem, frame, mapping, LoadTemps(i.uses), i.uses, tgt, a);
      OthersWatched(i, live, r);
      AgreeAt(mapping, Before(i, live), src, tgt, r);
    }
  }

  lemma LocPhysical(mapping: Mapping, r: Reg)
    requires IsPhysical(r)
    ensures Loc(mapping, r) == InReg(r)
  {}

  /** What an ordinary instruction leaves in the place of one register. */
  lemma {:induction false} OpAt(sem: Semantics, frame: Frame, mapping: Mapping, i: Instr, live: set<Reg>, src: State,
                                tgt: State, r: Reg)
    requires Sound(mapping) && FloatsNear(frame, mapping) && i.Op? && Allocatable(i) && NoClash(mapping, i, live)
    requires live !! TEMPS
    requires RewriteOp(mapping, i).Some? && Agree(mapping, Before(i, live), src, tgt) && r in Watched(live)
    ensures var now, done := RunInstr(sem, src, i), RunSteps(sem, frame, tgt, RewriteOp(mapping, i).value);
            now.world == done.world && Get(done.cells, Loc(mapping, r)) == Get(now.cells, InReg(r))
  {
    hide Sound, Agree, Get, Loc, RunSteps, AllocAny, SetAll, Watched, Before, NoClash, Fit, Trash, LoadTemps;
    SameOperands(sem, frame, mapping, i, live, src, tgt);
    ThreeParts(sem, frame, mapping, i, tgt);
    var loads := AllocAny(mapping, true, LoadTemps(i.uses), i.uses).value;
    var mid := RunSteps(sem, frame, tgt, loads.code);
    var e := sem.effect(i.code, src.world, GetAll(src.cells, i.uses));
    WatchedNotTemp(live, r);
    forall d | d in i.defs && d != r
      ensures Loc(mapping, d) != Loc(mapping, r)
    {
      WatchedApart(mapping, i, live, d, r);
    }
    var cells := Trash(mid.cells, ToSet(i.destroyed), e.trash);
    var stores := AllocAny(mapping, false, STORE_TEMPS, i.defs).value;
    AllocWorld(sem, frame, mapping, false, STORE_TEMPS, i.defs,
               RunOp(sem, mid, i.code, Renamed(stores.local, i.defs), Renamed(loads.local, i.uses), i.destroyed));
    if r in i.defs {
      var k :| 0 <= k < |i.defs| && i.defs[k] == r;
      ResultArrives(sem, frame, mapping, i.defs, cells, e.results, e.world, k);
      SetAllAt(Trash(src.cells, ToSet(i.destroyed), e.trash), i.defs, e.results, k);
    } else {
      LocKind(mapping, r);
      OtherStays(sem, frame, mapping, i.defs, cells, e.results, e.world, Loc(mapping, r));
      SetAllOther(Trash(src.cells, ToSet(i.destroyed), e.trash), i.defs, e.results, InReg(r));
      TrashSame(sem, frame, mapping, i, live, src, tgt, e.trash, r);
    }
  }

  /** A rewritten instruction other than a move agrees with the original. */
  lemma {:induction false} OpAgrees(sem: Semantics, frame: Frame, mapping: Mapping, i: Instr, live: set<Reg>,
                                    src: State, tgt: State)
    requires Sound(mapping) && FloatsNear(frame, mapping) && i.Op? && Allocatable(i) && NoClash(mapping, i, live)
    requires live !! TEMPS
    requires RewriteOp(mapping, i).Some? && Agree(mapping, Before(i, live), src, tgt)
    ensures Agree(mapping, live, RunInstr(sem, src, i), RunSteps(sem, frame, tgt, RewriteOp(mapping, i).value))
  {
    hide Sound, Get, Loc, RunSteps, RunInstr, RewriteOp, Before, NoClash, Allocatable, FloatsNear;
    assert Agree(mapping, Before(i, live), src, tgt);
    forall r | r in Watched(live)
      ensures Get(RunSteps(sem, frame, tgt, RewriteOp(mapping, i).value).cells, Loc(mapping, r))
           == Get(RunInstr(sem, src, i).cells, InReg(r))
    {
      hide Agree, Watched;
      OpAt(sem, frame, mapping, i, live, src, tgt, r);
    }
    assert R(0) in Watched(live);
    OpAt(sem, frame, mapping, i, live, src, tgt, R(0));
  }

  // ---- moves -------------------------------------------------------------------------

  /** A floating-point value between memory and a far slot goes wrong: a load builds
      the address in the floating-point register itself, and a copy from slot to slot
      goes through the integer temporaries as a pair, the second of which the address
      then overwrites. */
  predicate MoveSurvives(frame: Frame, mapping: Mapping, cells: Cells, src: Reg, dst: Reg) {
    match (Loc(mapping, src), Loc(mapping, dst))
    case (OnStack(l), InReg(r')) => src.F? && frame.far(l) ==> Get(cells, OnStack(l)) == frame.junk(l)
    case (OnStack(l), OnStack(l')) => src.F? && frame.far(l') ==> Get(cells, OnStack(l)).lo == frame.address(l')
    case _ => true
  }

  /** A rewritten move delivers the value exactly when it survives. */
  lemma {:induction false} MoveExact(sem: Semantics, frame: Frame, mapping: Mapping, deleteMoves: bool, src: Reg,
                                     dst: Reg, st: State)
    requires Sound(mapping) && Allocatable(Move(src, dst)) && Mapped(mapping, src) && Mapped(mapping, dst)
    ensures var code := RewriteMove(mapping, deleteMoves, src, dst);
            && code.Some?
            && (Get(RunSteps(sem, frame, st, code.value).cells, Loc(mapping, dst)) == Get(st.cells, Loc(mapping, src))
                <==> MoveSurvives(frame, mapping, st.cells, src, dst))
  {
    hide Sound, Loc;
    assert src in ToSet(Uses(Move(src, dst))) && dst in ToSet(Defs(Move(src, dst)));
    LocKind(mapping, src);
    LocKind(mapping, dst);
    var code := RewriteMove(mapping, deleteMoves, src, dst).value;
    if |code| == 1 {
      OneStep(sem, frame, st, code);
    } else if |code| == 2 {
      OneStep(sem, frame, st, code[..1]);
      OneStep(sem, frame, RunStep(sem, frame, st, code[0]), code[1..]);
    }
  }

  lemma {:induction false} OneStep(sem: Semantics, frame: Frame, st: State, code: seq<Step>)
    requires |code| == 1
    ensures RunSteps(sem, frame, st, code) == RunStep(sem, frame, st, code[0])
  {
    assert code[1..] == [];
  }

  /** A rewritten move changes nothing but its destination and the temporaries. */
  lemma {:induction false} MoveKeeps(sem: Semantics, frame: Frame, mapping: Mapping, deleteMoves: bool, src: Reg,
                                     dst: Reg, st: State, a: Assign)
    requires Sound(mapping) && Allocatable(Move(src, dst)) && RewriteMove(mapping, deleteMoves, src, dst).Some?
    requires a != Loc(mapping, dst) && (a.InReg? ==> a.r !in TEMPS)
    ensures var done := RunSteps(sem, frame, st, RewriteMove(mapping, deleteMoves, src, dst).value);
            done.world == st.world && Get(done.cells, a) == Get(st.cells, a)
  {
    hide Sound, Loc;
    LocKind(mapping, src);
    LocKind(mapping, dst);
    assert dst in ToSet(Defs(Move(src, dst)));
    var code := RewriteMove(mapping, deleteMoves, src, dst).value;
    if |code| == 1 {
      OneStep(sem, frame, st, code);
    } else if |code| == 2 {
      OneStep(sem, frame, st, code[..1]);
      OneStep(sem, frame, RunStep(sem, frame, st, code[0]), code[1..]);
    }
  }

  lemma SetMove(st: State, sem: Semantics, src: Reg, dst: Reg, a: Assign)
    requires src.F? == dst.F?
    ensures RunInstr(sem, st, Move(src, dst)).world == st.world
    ensures Get(RunInstr(sem, st, Move(src, dst)).cells, a) == Get(st.cells, if a == InReg(dst) then InReg(src) else a)
  {}

  lemma NearSurvives(frame: Frame, mapping: Mapping, cells: Cells, src: Reg, dst: Reg)
    requires FloatsNear(frame, mapping) && Sound(mapping) && src.F? == dst.F?
    ensures MoveSurvives(frame, mapping, cells, src, dst)
  {
    LocKind(mapping, src);
    LocKind(mapping, dst);
  }

  /** The slots have to be near: a register spilled to a far one cannot always be
      moved to a floating-point register. */
  lemma FarFloatFails(sem: Semantics, frame: Frame, mapping: Mapping, deleteMoves: bool, a: Reg, dst: Reg)
    returns (st: State)
    requires Sound(mapping) && Allocatable(Move(a, dst)) && Mapped(mapping, dst) && Loc(mapping, dst).InReg?
    requires a.F? && a in mapping && !IsPhysical(a) && mapping[a].OnStack? && frame.far(mapping[a].s)
    ensures var code := RewriteMove(mapping, deleteMoves, a, dst);
            && code.Some?
            && Get(RunSteps(sem, frame, st, code.value).cells, Loc(mapping, dst)) != Get(st.cells, Loc(mapping, a))
  {
    st := State(World(map[], []), map[mapping[a] := Val(frame.junk(mapping[a].s).hi + 1, 0)]);
    MoveExact(sem, frame, mapping, deleteMoves, a, dst, st);
  }

  lemma MovePlaces(mapping: Mapping, deleteMoves: bool, src: Reg, dst: Reg, live: set<Reg>)
    requires RewriteMove(mapping, deleteMoves, src, dst).Some? && dst in Watched(live)
    requires dst in live ==> Mapped(mapping, dst)
    ensures Mapped(mapping, src) && Mapped(mapping, dst)
  {}

  lemma {:induction false} MoveAt(sem: Semantics, frame: Frame, mapping: Mapping, deleteMoves: bool, src: Reg, dst: Reg,
                                  live: set<Reg>, s: State, t: State, r: Reg)
    requires Sound(mapping) && FloatsNear(frame, mapping) && Allocatable(Move(src, dst)) && live !! TEMPS
    requires NoClash(mapping, Move(src, dst), live) && (dst in live ==> Mapped(mapping, dst))
    requires RewriteMove(mapping, deleteMoves, src, dst).Some? && Agree(mapping, Before(Move(src, dst), live), s, t)
    requires r in Watched(live)
    ensures var now := RunInstr(sem, s, Move(src, dst));
            var done := RunSteps(sem, frame, t, RewriteMove(mapping, deleteMoves, src, dst).value);
            now.world == done.world && Get(done.cells, Loc(mapping, r)) == Get(now.cells, InReg(r))
  {
    hide Sound, Get, Loc, RunSteps, RunInstr, RewriteMove, Before, NoClash, FloatsNear, Mapped, Watched, MoveSurvives,
         Agree;
    var i := Move(src, dst);
    assert src in ToSet(Uses(i)) && dst in ToSet(Defs(i)) && dst in Defs(i);
    SetMove(s, sem, src, dst, InReg(r));
    WorldAgrees(mapping, Before(i, live), s, t);
    MoveKeeps(sem, frame, mapping, deleteMoves, src, dst, t, OnStack(Elsewhere(mapping, dst)));
    if r == dst {
      MovePlaces(mapping, deleteMoves, src, dst, live);
      MoveExact(sem, frame, mapping, deleteMoves, src, dst, t);
      NearSurvives(frame, mapping, t.cells, src, dst);
      UsesWatched(i, live, src);
      AgreeAt(mapping, Before(i, live), s, t, src);
    } else {
      WatchedApart(mapping, i, live, dst, r);
      WatchedNotTemp(live, r);
      LocKind(mapping, r);
      MoveKeeps(sem, frame, mapping, deleteMoves, src, dst, t, Loc(mapping, r));
      OthersWatched(i, live, r);
      AgreeAt(mapping, Before(i, live), s, t, r);
    }
  }

  function Elsewhere(mapping: Mapping, dst: Reg): (s: Slot)
    ensures Loc(mapping, dst) != OnStack(s)
  {
    if Loc(mapping, dst).OnStack? then Slot(false, Loc(mapping, dst).s.n + 1) else Slot(false, 0)
  }

  lemma {:induction false} MoveAgrees(sem: Semantics, frame: Frame, mapping: Mapping, deleteMoves: bool, src: Reg,
                                      dst: Reg, live: set<Reg>, s: State, t: State)
    requires Sound(mapping) && FloatsNear(frame, mapping) && Allocatable(Move(src, dst)) && live !! TEMPS
    requires NoClash(mapping, Move(src, dst), live) && (dst in live ==> Mapped(mapping, dst))
    requires RewriteMove(mapping, deleteMoves, src, dst).Some? && Agree(mapping, Before(Move(src, dst), live), s, t)
    ensures Agree(mapping, live, RunInstr(sem, s, Move(src, dst)),
                  RunSteps(sem, frame, t, RewriteMove(mapping, deleteMoves, src, dst).value))
  {
    hide Sound, Get, Loc, RunSteps, RunInstr, RewriteMove, Before, NoClash, Allocatable, FloatsNear, Mapped;
    assert Agree(mapping, Before(Move(src, dst), live), s, t);
    forall r | r in Watched(live)
      ensures Get(RunSteps(sem, frame, t, RewriteMove(mapping, deleteMoves, src, dst).value).cells, Loc(mapping, r))
           == Get(RunInstr(sem, s, Move(src, dst)).cells, InReg(r))
    {
      hide Agree, Watched;
      MoveAt(sem, frame, mapping, deleteMoves, src, dst, live, s, t, r);
    }
    assert R(0) in Watched(live);
    MoveAt(sem, frame, mapping, deleteMoves, src, dst, live, s, t, R(0));
  }

  /** A rewritten instruction agrees with the original. */
  lemma {:induction false} InstrAgrees(sem: Semantics, frame: Frame, mapping: Mapping, deleteMoves: bool, i: Instr,
                                       live: set<Reg>, src: State, tgt: State)
    requires Sound(mapping) && FloatsNear(frame, mapping) && Allocatable(i) && NoClash(mapping, i, live)
    requires live !! TEMPS
    requires forall d | d in Defs(i) && d in live :: Mapped(mapping, d)
    requires Rewrite(mapping, deleteMoves, i).Some? && Agree(mapping, Before(i, live), src, tgt)
    ensures Agree(mapping, live, RunInstr(sem, src, i),
                  RunSteps(sem, frame, tgt, Rewrite(mapping, deleteMoves, i).value))
  {
    hide Sound, FloatsNear, Allocatable, NoClash, RunInstr, RunSteps, Before, Agree, RewriteOp, RewriteMove, Mapped;
    if i.Op? {
      OpAgrees(sem, frame, mapping, i, live, src, tgt);
    } else {
      assert i == Move(i.src, i.dst);
      MoveAgrees(sem, frame, mapping, deleteMoves, i.src, i.dst, live, src, tgt);
    }
  }

  // ---- blocks and runs ------------------------------------------------------------------

  /** Every instruction of a block can be rewritten in place, given what is live
      after the block. */
  ghost predicate BlockFits(mapping: Mapping, instrs: seq<Instr>, out: set<Reg>)
    decreases instrs
  {
    instrs == [] ||
    (var live := BeforeAll(instrs[1..], out);
     && Allocatable(instrs[0]) && NoClash(mapping, instrs[0], live)
     && (forall d | d in Defs(instrs[0]) && d in live :: Mapped(mapping, d))
     && BlockFits(mapping, instrs[1..], out))
  }

  /** A rewritten block agrees with the original. */
  lemma {:induction false} BlockAgrees(sem: Semantics, frame: Frame, mapping: Mapping, deleteMoves: bool,
                                       instrs: seq<Instr>, out: set<Reg>, src: State, tgt: State)
    requires Sound(mapping) && FloatsNear(frame, mapping) && BlockFits(mapping, instrs, out) && out !! SPECIAL
    requires RewriteAll(mapping, deleteMoves, instrs).Some? && Agree(mapping, BeforeAll(instrs, out), src, tgt)
    ensures Agree(mapping, out, RunInstrs(sem, src, instrs),
                  RunSteps(sem, frame, tgt, RewriteAll(mapping, deleteMoves, instrs).value))
    decreases instrs
  {
    hide Sound, FloatsNear, Allocatable, NoClash, RunInstr, RunStep, Before, Agree, Mapped, Rewrite;
    if instrs != [] {
      var live := BeforeAll(instrs[1..], out);
      BeforeNoSpecial(instrs[1..], out);
      InstrAgrees(sem, frame, mapping, deleteMoves, instrs[0], live, src, tgt);
      var code := Rewrite(mapping, deleteMoves, instrs[0]).value;
      var rest := RewriteAll(mapping, deleteMoves, instrs[1..]).value;
      RunConcat(sem, frame, tgt, code, rest);
      BlockAgrees(sem, frame, mapping, deleteMoves, instrs[1..], out, RunInstr(sem, src, instrs[0]),
                  RunSteps(sem, frame, tgt, code));
    }
  }

  /** Where a run is after some blocks: the next block, if any, and the state. */
  datatype Outcome = Outcome(next: Option<Label>, state: State)

  /** The branch at the end of a block looks at the world; it leaves the procedure
      when it takes none of the successors. */
  function After(sem: Semantics, g: Cfg, b: Label, world: World): Option<Label>
    requires b in g
  {
    var k := sem.branch(b, world);
    if k < |g[b].succs| then Some(g[b].succs[k]) else None
  }

  function Run(sem: Semantics, g: Cfg, b: Label, st: State, n: nat): Outcome
    requires WellFormed(g) && b in g
    decreases n
  {
    if n == 0 then Outcome(Some(b), st)
    else
      var now := RunInstrs(sem, st, g[b].instrs);
      match After(sem, g, b, now.world)
      case None => Outcome(None, now)
      case Some(l) => assert l in g[b].succs; Run(sem, g, l, now, n - 1)
  }

  type Codes = map<Label, seq<Step>>

  function RunCodes(sem: Semantics, frame: Frame, g: Cfg, codes: Codes, b: Label, st: State, n: nat): Outcome
    requires WellFormed(g) && b in g && codes.Keys == g.Keys
    decreases n
  {
    if n == 0 then Outcome(Some(b), st)
    else
      var now := RunSteps(sem, frame, st, codes[b]);
      match After(sem, g, b, now.world)
      case None => Outcome(None, now)
      case Some(l) => assert l in g[b].succs; RunCodes(sem, frame, g, codes, l, now, n - 1)
  }

  /** What the allocation of a procedure rests on: code for every block, from one
      mapping under which no instruction overwrites what is live, and live sets that
      pass from the end of a block to the start of each successor. */
  ghost predicate Allocated(g: Cfg, mapping: Mapping, deleteMoves: bool, outLive: Lives, codes: Codes) {
    && WellFormed(g) && Sound(mapping) && codes.Keys == g.Keys && outLive.Keys == g.Keys
    && (forall b | b in g ::
          && outLive[b] !! SPECIAL && BlockFits(mapping, g[b].instrs, outLive[b])
          && RewriteAll(mapping, deleteMoves, g[b].instrs) == Some(codes[b]))
    && (forall b, l | b in g && l in g[b].succs :: BeforeAll(g[l].instrs, outLive[l]) <= outLive[b])
  }

  ghost predicate SameOutcome(g: Cfg, mapping: Mapping, outLive: Lives, src: Outcome, tgt: Outcome)
    requires outLive.Keys == g.Keys
  {
    && src.next == tgt.next && src.state.world == tgt.state.world
    && (src.next.Some? ==>
          && src.next.value in g
          && Agree(mapping, BeforeAll(g[src.next.value].instrs, outLive[src.next.value]), src.state, tgt.state))
  }

  lemma AgreeLess(mapping: Mapping, big: set<Reg>, small: set<Reg>, src: State, tgt: State)
    requires small <= big && Agree(mapping, big, src, tgt)
    ensures Agree(mapping, small, src, tgt)
  {}

  /** After any number of blocks the allocated procedure is at the same block as the
      original, in the same world, with every live register's value in its place. */
  lemma {:induction false} RunsAgree(sem: Semantics, frame: Frame, g: Cfg, mapping: Mapping, deleteMoves: bool,
                                     outLive: Lives, codes: Codes,
                                     b: Label, src: State, tgt: State, n: nat)
    requires Allocated(g, mapping, deleteMoves, outLive, codes) && FloatsNear(frame, mapping) && b in g
    requires Agree(mapping, BeforeAll(g[b].instrs, outLive[b]), src, tgt)
    ensures SameOutcome(g, mapping, outLive, Run(sem, g, b, src, n), RunCodes(sem, frame, g, codes, b, tgt, n))
    decreases n
  {
    hide Sound, FloatsNear, Agree, BlockFits, RewriteAll, BeforeAll, RunInstrs, RunSteps;
    assert src.world == tgt.world by { WorldAgrees(mapping, BeforeAll(g[b].instrs, outLive[b]), src, tgt); }
    if n > 0 {
      var now, done := RunInstrs(sem, src, g[b].instrs), RunSteps(sem, frame, tgt, codes[b]);
      BlockAgrees(sem, frame, mapping, deleteMoves, g[b].instrs, outLive[b], src, tgt);
      WorldAgrees(mapping, outLive[b], now, done);
      match After(sem, g, b, now.world)
      case None =>
      case Some(l) =>
        assert l in g[b].succs;
        AgreeLess(mapping, outLive[b], BeforeAll(g[l].instrs, outLive[l]), now, done);
        RunsAgree(sem, frame, g, mapping, deleteMoves, outLive, codes, l, now, done, n - 1);
    }
  }
}

/** Live-variable analysis: block summaries, the fixpoint over the control-flow
    graph, and the liveness of single instructions. */
module Liveness {
  import opened Machine

  function PlusListMinus(base: set<Reg>, addlist: seq<Reg>, filter: set<Reg>): set<Reg> {
    base + (set r | r in addlist && r !in filter)
  }

  /** Registers used before any definition in the block, and registers defined. */
  function DefUseLoop(instrs: seq<Instr>, use: set<Reg>, def: set<Reg>): (set<Reg>, set<Reg>) {
    if instrs == [] then (use - SPECIAL, def - SPECIAL)
    else
      var use' := PlusListMinus(use, Uses(instrs[0]), def);
      var def' := PlusListMinus(def, Defs(instrs[0]), use');
      DefUseLoop(instrs[1..], use', def')
  }

  function BlockDefUse(b: Block): (set<Reg>, set<Reg>) { DefUseLoop(b.instrs, {}, {}) }

  /** What is live before an instruction when `live` is live after it. */
  function Before(i: Instr, live: set<Reg>): set<Reg> {
    PlusListMinus(live - ToSet(Defs(i)), Uses(i), SPECIAL)
  }

  /** What is live before the instructions when `live` is live after them. */
  function BeforeAll(instrs: seq<Instr>, live: set<Reg>): set<Reg> {
    if instrs == [] then live else Before(instrs[0], BeforeAll(instrs[1..], live))
  }

  /** The registers live after each instruction, as the annotation pass finds
      them going backwards from the end of the block. */
  function Annotate(instrs: seq<Instr>, live: set<Reg>): (r: seq<set<Reg>>)
    ensures |r| == |instrs|
  {
    if instrs == [] then []
    else Annotate(instrs[..|instrs| - 1], Before(instrs[|instrs| - 1], live)) + [live]
  }

  lemma {:induction false} BeforeNoSpecial(instrs: seq<Instr>, live: set<Reg>)
    requires live !! SPECIAL
    ensures BeforeAll(instrs, live) !! SPECIAL
  {
    if instrs != [] {
      BeforeNoSpecial(instrs[1..], live);
    }
  }

  lemma {:induction false} LoopIsTransfer(instrs: seq<Instr>, use: set<Reg>, def: set<Reg>, live: set<Reg>)
    requires live !! SPECIAL
    ensures var (u, d) := DefUseLoop(instrs, use, def);
            u + (live - d) == (use - SPECIAL) + (BeforeAll(instrs, live) - def)
  {
    if instrs != [] {
      var use' := PlusListMinus(use, Uses(instrs[0]), def);
      var def' := PlusListMinus(def, Defs(instrs[0]), use');
      LoopIsTransfer(instrs[1..], use', def', live);
      BeforeNoSpecial(instrs[1..], live);
    }
  }

  /** The summary of a block says the same as its instructions one by one. */
  lemma {:induction false} SummaryIsTransfer(b: Block, live: set<Reg>)
    requires live !! SPECIAL
    ensures var (use, def) := BlockDefUse(b); use + (live - def) == BeforeAll(b.instrs, live)
  {
    LoopIsTransfer(b.instrs, {}, {}, live);
  }

  /** Some instruction uses the register before any has defined it. */
  ghost predicate Needs(instrs: seq<Instr>, r: Reg) {
    exists k :: 0 <= k < |instrs| && r in Uses(instrs[k]) && forall j | 0 <= j < k :: r !in Defs(instrs[j])
  }

  /** No instruction defines the register. */
  ghost predicate Keeps(instrs: seq<Instr>, r: Reg) { forall i | i in instrs :: r !in Defs(i) }

  lemma NeedsCons(instrs: seq<Instr>, r: Reg)
    requires instrs != []
    ensures Needs(instrs, r) <==> r in Uses(instrs[0]) || (r !in Defs(instrs[0]) && Needs(instrs[1..], r))
    ensures Keeps(instrs, r) <==> r !in Defs(instrs[0]) && Keeps(instrs[1..], r)
  {
    var rest := instrs[1..];
    assert instrs == [instrs[0]] + rest;
    if r !in Uses(instrs[0]) && r !in Defs(instrs[0]) && Needs(rest, r) {
      var k :| 0 <= k < |rest| && r in Uses(rest[k]) && forall j | 0 <= j < k :: r !in Defs(rest[j]);
      forall j | 0 <= j < k + 1
        ensures r !in Defs(instrs[j])
      {
        assert j > 0 ==> instrs[j] == rest[j - 1];
      }
      assert instrs[k + 1] == rest[k];
    }
    if Needs(instrs, r) && r !in Uses(instrs[0]) {
      var k :| 0 <= k < |instrs| && r in Uses(instrs[k]) && forall j | 0 <= j < k :: r !in Defs(instrs[j]);
      forall j | 0 <= j < k - 1
        ensures r !in Defs(rest[j])
      {
        assert rest[j] == instrs[j + 1];
      }
      assert rest[k - 1] == instrs[k];
    }
  }

  /** A register is live before the instructions exactly when one of them uses its value,
      or none defines it and it is live behind them. */
  lemma {:induction false} BeforeAllIs(instrs: seq<Instr>, live: set<Reg>, r: Reg)
    requires live !! SPECIAL
    ensures r in BeforeAll(instrs, live) <==> r !in SPECIAL && (Needs(instrs, r) || (r in live && Keeps(instrs, r)))
  {
    if instrs != [] {
      NeedsCons(instrs, r);
      BeforeAllIs(instrs[1..], live, r);
      BeforeNoSpecial(instrs[1..], live);
      hide Needs, Keeps;
    }
  }

  lemma {:induction false} LoopApart(instrs: seq<Instr>, use: set<Reg>, def: set<Reg>)
    requires use !! def
    ensures DefUseLoop(instrs, use, def).0 !! DefUseLoop(instrs, use, def).1
  {
    if instrs != [] {
      var use' := PlusListMinus(use, Uses(instrs[0]), def);
      LoopApart(instrs[1..], use', PlusListMinus(def, Defs(instrs[0]), use'));
    }
  }

  /** A block uses the registers it needs, and defines those it changes without needing
      them first. */
  lemma {:induction false} SummaryExact(b: Block, r: Reg)
    ensures r in BlockDefUse(b).0 <==> r !in SPECIAL && Needs(b.instrs, r)
    ensures r in BlockDefUse(b).1 <==> r !in SPECIAL && !Needs(b.instrs, r) && !Keeps(b.instrs, r)
  {
    hide Needs, Keeps;
    LoopApart(b.instrs, {}, {});
    LoopNoSpecial(b.instrs, {}, {});
    SummaryIsTransfer(b, {});
    BeforeAllIs(b.instrs, {}, r);
    if r !in SPECIAL {
      SummaryIsTransfer(b, {r});
      BeforeAllIs(b.instrs, {r}, r);
    }
  }

  lemma {:induction false} BeforeSnoc(instrs: seq<Instr>, i: Instr, live: set<Reg>)
    ensures BeforeAll(instrs + [i], live) == BeforeAll(instrs, Before(i, live))
  {
    if instrs != [] {
      BeforeSnoc(instrs[1..], i, live);
      assert (instrs + [i])[1..] == instrs[1..] + [i];
    } else {
      assert BeforeAll([i], live) == Before(i, BeforeAll([], live));
    }
  }

  /** Each annotation is what the instructions behind it need. */
  lemma {:induction false} AnnotationIs(instrs: seq<Instr>, live: set<Reg>, k: nat)
    requires k < |instrs|
    ensures Annotate(instrs, live)[k] == BeforeAll(instrs[k + 1..], live)
  {
    var front, i := instrs[..|instrs| - 1], instrs[|instrs| - 1];
    if k < |front| {
      AnnotationIs(front, Before(i, live), k);
      BeforeSnoc(front[k + 1..], i, live);
      assert instrs[k + 1..] == front[k + 1..] + [i];
    }
  }

  // ---- the fixpoint -------------------------------------------------------

  datatype Info = Info(use: set<Reg>, def: set<Reg>, succs: seq<Label>)

  type Infos = map<Label, Info>

  function Summaries(g: Cfg): Infos {
    map b | b in g :: var (use, def) := BlockDefUse(g[b]); Info(use, def, g[b].succs)
  }

  predicate Linked(infos: Infos) {
    forall b, l | b in infos && l in infos[b].succs :: l in infos
  }

  type Lives = map<Label, set<Reg>>

  function UnionLists(lives: Lives, labels: seq<Label>): set<Reg> {
    set l, r | l in labels && l in lives && r in lives[l] :: r
  }

  function InLive(infos: Infos, first: Label, b: Label, out: set<Reg>): set<Reg>
    requires b in infos
  {
    if b == first then {} else infos[b].use + (out - infos[b].def)
  }

  /** A set of live-in registers at least as large as the equations ask for. */
  ghost predicate Covers(infos: Infos, first: Label, lives: Lives) {
    lives.Keys == infos.Keys
    && forall b | b in infos :: InLive(infos, first, b, UnionLists(lives, infos[b].succs)) <= lives[b]
  }

  /** The equations hold at a block. */
  predicate Solves(infos: Infos, first: Label, inLive: Lives, outLive: Lives, b: Label) {
    && b in infos && b in inLive && b in outLive
    && outLive[b] == UnionLists(inLive, infos[b].succs)
    && inLive[b] == InLive(infos, first, b, outLive[b])
  }

  /** A way for the value of `r` at the head of path to reach a use: along
      successors, past blocks that do not define it, never through the entry. */
  ghost predicate LivePath(infos: Infos, first: Label, path: seq<Label>, r: Reg) {
    && path != []
    && (forall k | 0 <= k < |path| :: path[k] in infos && path[k] != first)
    && (forall k | 0 <= k < |path| - 1 :: path[k + 1] in infos[path[k]].succs && r !in infos[path[k]].def)
    && r in infos[path[|path| - 1]].use
  }

  ghost predicate IsLiveAt(infos: Infos, first: Label, b: Label, r: Reg) {
    exists path :: LivePath(infos, first, path, r) && path[0] == b
  }

  ghost function AllRegs(infos: Infos): set<Reg> {
    set b, r | b in infos && r in infos[b].use :: r
  }

  /** What is not yet known to be live anywhere. */
  ghost function Missing(infos: Infos, lives: Lives): set<(Label, Reg)> {
    set b, r | b in infos && r in AllRegs(infos) && !(b in lives && r in lives[b]) :: (b, r)
  }

  /** Where the iteration stands: below every solution, and below what one more
      step would give. */
  ghost predicate Below(infos: Infos, first: Label, lives: Lives) {
    && lives.Keys == infos.Keys
    && (forall b | b in infos :: lives[b] <= AllRegs(infos))
    && (forall b | b in infos :: lives[b] <= InLive(infos, first, b, UnionLists(lives, infos[b].succs)))
    && (forall all | Covers(infos, first, all) :: forall b | b in infos :: lives[b] <= all[b])
  }

  lemma UnionGrows(small: Lives, big: Lives, labels: seq<Label>)
    requires small.Keys <= big.Keys && forall l | l in small :: small[l] <= big[l]
    ensures UnionLists(small, labels) <= UnionLists(big, labels)
  {}

  lemma InAllRegs(infos: Infos, first: Label, lives: Lives, b: Label)
    requires b in infos && lives.Keys <= infos.Keys && forall l | l in lives :: lives[l] <= AllRegs(infos)
    ensures InLive(infos, first, b, UnionLists(lives, infos[b].succs)) <= AllRegs(infos)
  {
    hide InLive;
    forall r | r in infos[b].use
      ensures r in AllRegs(infos)
    {}
    InLiveParts(infos, first, b, UnionLists(lives, infos[b].succs));
  }

  lemma InLiveParts(infos: Infos, first: Label, b: Label, out: set<Reg>)
    requires b in infos
    ensures InLive(infos, first, b, out) <= infos[b].use + out
  {}

  /** Recomputing one block keeps the iteration below every solution. */
  lemma StepBelow(infos: Infos, first: Label, lives: Lives, b: Label)
    requires Below(infos, first, lives) && b in infos
    ensures var out := UnionLists(lives, infos[b].succs);
            var next := lives[b := InLive(infos, first, b, out)];
            Below(infos, first, next) && lives[b] <= next[b]
  {
    var next := lives[b := InLive(infos, first, b, UnionLists(lives, infos[b].succs))];
    assert forall l | l in infos :: lives[l] <= next[l];
    assert next.Keys == infos.Keys;
    forall l | l in infos
      ensures next[l] <= AllRegs(infos)
      ensures next[l] <= InLive(infos, first, l, UnionLists(next, infos[l].succs))
    {
      hide AllRegs, Covers, UnionLists;
      InAllRegs(infos, first, lives, b);
      UnionGrows(lives, next, infos[l].succs);
    }
    forall all | Covers(infos, first, all)
      ensures forall l | l in infos :: next[l] <= all[l]
    {
      hide AllRegs, UnionLists;
      UnionGrows(lives, all, infos[b].succs);
    }
  }

  lemma MissingShrinks(infos: Infos, lives: Lives, b: Label, now: set<Reg>)
    requires b in infos && b in lives && lives[b] <= now <= AllRegs(infos)
    ensures Missing(infos, lives[b := now]) <= Missing(infos, lives)
    ensures lives[b] != now ==> Missing(infos, lives[b := now]) != Missing(infos, lives)
  {
    hide AllRegs;
    if lives[b] != now {
      var r :| r in now && r !in lives[b];
      assert (b, r) in Missing(infos, lives);
      assert (b, r) !in Missing(infos, lives[b := now]);
    }
  }

  /** The order in which blocks are visited: reverse depth-first from the entry,
      then from every other label. */
  function RevDFS(infos: Infos, work: seq<Label>, seen: seq<Label>): (r: seq<Label>)
    requires Linked(infos) && (forall l | l in work :: l in infos) && (forall l | l in seen :: l in infos)
    ensures forall l | l in work || l in seen :: l in r
    ensures forall l | l in r :: l in infos
    decreases infos.Keys - ToLabels(seen), |work|
  {
    if work == [] then seen
    else if work[0] in seen then RevDFS(infos, work[1..], seen)
    else
      assert work[0] in infos.Keys - ToLabels(seen);
      RevDFS(infos, infos[work[0]].succs + work[1..], [work[0]] + seen)
  }

  /** What has been seen stays behind what is found later, and nothing comes twice. */
  lemma {:induction false} RevDFSOnce(infos: Infos, work: seq<Label>, seen: seq<Label>)
    requires Linked(infos) && (forall l | l in work :: l in infos) && (forall l | l in seen :: l in infos)
    requires forall i, j | 0 <= i < j < |seen| :: seen[i] != seen[j]
    ensures var r := RevDFS(infos, work, seen);
            && |seen| <= |r| && r[|r| - |seen|..] == seen
            && forall i, j | 0 <= i < j < |r| :: r[i] != r[j]
    decreases infos.Keys - ToLabels(seen), |work|
  {
    if work != [] {
      if work[0] in seen {
        RevDFSOnce(infos, work[1..], seen);
      } else {
        assert work[0] in infos.Keys - ToLabels(seen);
        var now := [work[0]] + seen;
        RevDFSOnce(infos, infos[work[0]].succs + work[1..], now);
        var r := RevDFS(infos, work, seen);
        assert r[|r| - |seen|..] == r[|r| - |now|..][1..];
      }
    }
  }

  function ToLabels(ls: seq<Label>): set<Label> { set l | l in ls }

  class Analysis {
    const infos: Infos
    const first: Label
    var inLive: Lives
    var outLive: Lives

    constructor (infos: Infos, first: Label)
      requires Linked(infos) && first in infos
      ensures this.infos == infos && this.first == first && Valid()
    {
      this.infos, this.first := infos, first;
      inLive := map b | b in infos :: {};
      outLive := map b | b in infos :: {};
    }

    ghost predicate Valid()
      reads this
    {
      && Linked(infos) && first in infos
      && outLive.Keys == infos.Keys
      && inLive.Keys == infos.Keys && inLive[first] == {}
      && Below(infos, first, inLive)
    }

    /** Recomputes one block, and reports whether its live-in set stayed. */
    method ReverseStep(b: Label) returns (same: bool)
      requires Valid() && b in infos
      modifies this
      ensures Valid()
      ensures inLive == old(inLive)[b := InLive(infos, first, b, outLive[b])]
      ensures outLive == old(outLive)[b := UnionLists(old(inLive), infos[b].succs)]
      ensures same <==> inLive == old(inLive)
      ensures same ==> Solves(infos, first, inLive, outLive, b)
      ensures Missing(infos, inLive) <= Missing(infos, old(inLive))
      ensures !same ==> Missing(infos, inLive) != Missing(infos, old(inLive))
    {
      hide UnionLists, Missing;
      StepBelow(infos, first, inLive, b);
      hide Below;
      var out := UnionLists(inLive, infos[b].succs);
      var now := if b == first then inLive[b] else infos[b].use + (out - infos[b].def);
      same := inLive[b] == now;
      BelowBounded(inLive[b := now]);
      MissingShrinks(infos, inLive, b, now);
      outLive := outLive[b := out];
      inLive := inLive[b := now];
    }

    lemma BelowBounded(lives: Lives)
      requires Below(infos, first, lives)
      ensures forall b | b in infos :: lives[b] <= AllRegs(infos)
    {}

    /** One pass over the blocks. */
    method Pass(order: seq<Label>) returns (stable: bool)
      requires Valid() && forall b | b in order :: b in infos
      modifies this
      ensures Valid()
      ensures stable ==> forall b | b in order :: Solves(infos, first, inLive, outLive, b)
      ensures Missing(infos, inLive) <= Missing(infos, old(inLive))
      ensures !stable ==> Missing(infos, inLive) != Missing(infos, old(inLive))
    {
      hide Below, UnionLists, Missing, InLive;
      stable := true;
      for k := 0 to |order|
        invariant Valid()
        invariant Missing(infos, inLive) <= Missing(infos, old(inLive))
        invariant if stable then inLive == old(inLive) else Missing(infos, inLive) != Missing(infos, old(inLive))
        invariant stable ==> forall b | b in order[..k] :: Solves(infos, first, inLive, outLive, b)
      {
        assert order[..k + 1] == order[..k] + [order[k]];
        var same := ReverseStep(order[k]);
        stable := stable && same;
      }
      assert order[..|order|] == order;
    }

    /** Passes over all blocks until one leaves every live-in set as it was. The
        result satisfies the equations and is the least that does. */
    method FindLiveTemps()
      requires Valid()
      modifies this
      ensures Valid()
      ensures forall b | b in infos :: Solves(infos, first, inLive, outLive, b)
    {
      hide Below, UnionLists, Missing, InLive, Solves;
      var labels := SetToSeq(infos.Keys);
      var order := RevDFS(infos, [first] + labels, []);
      assert forall b | b in infos :: b in order by {
        assert forall b | b in infos :: b in [first] + labels;
      }
      var stable := false;
      while !stable
        invariant Valid()
        invariant stable ==> forall b | b in infos :: Solves(infos, first, inLive, outLive, b)
        decreases Missing(infos, inLive), if stable then 0 else 1
      {
        stable := Pass(order);
      }
    }
  }

  method SetToSeq(s: set<Label>) returns (r: seq<Label>)
    ensures forall l :: l in r <==> l in s
  {
    r := [];
    var rest := s;
    while rest != {}
      invariant rest <= s
      invariant forall l :: l in r <==> l in s - rest
      decreases rest
    {
      var l :| l in rest;
      r := r + [l];
      rest := rest - {l};
    }
  }

  /** Two solutions below every other are one. */
  lemma LeastSolution(infos: Infos, first: Label, in1: Lives, out1: Lives, in2: Lives, out2: Lives)
    requires Below(infos, first, in1) && Below(infos, first, in2) && out1.Keys == out2.Keys == infos.Keys
    requires forall b | b in infos :: Solves(infos, first, in1, out1, b) && Solves(infos, first, in2, out2, b)
    ensures in1 == in2 && out1 == out2
  {
    BelowSolution(infos, first, in1, in2, out2);
    BelowSolution(infos, first, in2, in1, out1);
    hide Below;
    assert in1 == in2 by {
      forall b | b in infos
        ensures in1[b] == in2[b]
      {
        assert in1[b] <= in2[b] && in2[b] <= in1[b];
      }
    }
    hide InLive, UnionLists;
    forall b | b in infos
      ensures out1[b] == out2[b]
    {
      assert Solves(infos, first, in1, out1, b) && Solves(infos, first, in2, out2, b);
    }
  }

  lemma BelowSolution(infos: Infos, first: Label, lives: Lives, inLive: Lives, outLive: Lives)
    requires Below(infos, first, lives) && Below(infos, first, inLive)
    requires forall b | b in infos :: Solves(infos, first, inLive, outLive, b)
    ensures lives.Keys == inLive.Keys == infos.Keys && forall b | b in infos :: lives[b] <= inLive[b]
  {
    hide Solves, Covers, InLive, UnionLists, AllRegs;
    SolutionCovers(infos, first, inLive, outLive);
  }

  lemma SolutionCovers(infos: Infos, first: Label, inLive: Lives, outLive: Lives)
    requires inLive.Keys == infos.Keys && forall b | b in infos :: Solves(infos, first, inLive, outLive, b)
    ensures Covers(infos, first, inLive)
  {
    hide InLive, UnionLists;
    forall b | b in infos
      ensures InLive(infos, first, b, UnionLists(inLive, infos[b].succs)) <= inLive[b]
    {
      assert Solves(infos, first, inLive, outLive, b);
    }
  }

  /** The path-based liveness is itself a solution. */
  ghost function PathLives(infos: Infos, first: Label): Lives {
    map b | b in infos :: set r | r in AllRegs(infos) && IsLiveAt(infos, first, b, r)
  }

  lemma PathCons(infos: Infos, first: Label, b: Label, l: Label, r: Reg)
    requires b in infos && b != first && l in infos[b].succs && r !in infos[b].def && IsLiveAt(infos, first, l, r)
    ensures IsLiveAt(infos, first, b, r)
  {
    var path :| LivePath(infos, first, path, r) && path[0] == l;
    assert LivePath(infos, first, [b] + path, r);
  }

  lemma PathLivesCover(infos: Infos, first: Label)
    requires Linked(infos)
    ensures Covers(infos, first, PathLives(infos, first))
  {
    var lives := PathLives(infos, first);
    forall b, r | b in infos && r in InLive(infos, first, b, UnionLists(lives, infos[b].succs))
      ensures r in lives[b]
    {
      hide LivePath;
      if r in infos[b].use {
        assert r in AllRegs(infos);
        UseIsLive(infos, first, b, r);
      } else {
        var l :| l in infos[b].succs && l in lives && r in lives[l];
        PathCons(infos, first, b, l, r);
      }
    }
  }

  lemma UseIsLive(infos: Infos, first: Label, b: Label, r: Reg)
    requires b in infos && b != first && r in infos[b].use
    ensures IsLiveAt(infos, first, b, r)
  {
    assert LivePath(infos, first, [b], r);
  }

  lemma PathIsLive(infos: Infos, first: Label, inLive: Lives, outLive: Lives, path: seq<Label>, r: Reg)
    requires forall b | b in infos :: Solves(infos, first, inLive, outLive, b)
    requires LivePath(infos, first, path, r)
    ensures path[0] in inLive && r in inLive[path[0]]
  {
    assert Solves(infos, first, inLive, outLive, path[0]);
    if |path| > 1 {
      assert path[1] in infos[path[0]].succs;
      assert LivePath(infos, first, path[1..], r);
      PathIsLive(infos, first, inLive, outLive, path[1..], r);
      assert r in UnionLists(inLive, infos[path[0]].succs);
    }
  }

  lemma LiveInIsSummaryPath(infos: Infos, first: Label, inLive: Lives, outLive: Lives, b: Label, r: Reg)
    requires Linked(infos) && b in infos && Below(infos, first, inLive)
    requires forall l | l in infos :: Solves(infos, first, inLive, outLive, l)
    ensures r in inLive[b] <==> IsLiveAt(infos, first, b, r)
  {
    if r in inLive[b] {
      PathLivesCover(infos, first);
    }
    if IsLiveAt(infos, first, b, r) {
      var path :| LivePath(infos, first, path, r) && path[0] == b;
      PathIsLive(infos, first, inLive, outLive, path, r);
    }
  }

  /** A way for the value of `r` at the head of the path to reach an instruction that uses
      it: along successors, past blocks without an instruction that defines it, never
      through the entry. */
  ghost predicate ValuePath(g: Cfg, first: Label, path: seq<Label>, r: Reg) {
    && path != [] && r !in SPECIAL
    && (forall k | 0 <= k < |path| :: path[k] in g && path[k] != first)
    && (forall k | 0 <= k < |path| - 1 :: path[k + 1] in g[path[k]].succs && Keeps(g[path[k]].instrs, r))
    && Needs(g[path[|path| - 1]].instrs, r)
  }

  lemma {:induction false} ValueOfSummaryPath(g: Cfg, first: Label, path: seq<Label>, r: Reg) returns (way: seq<Label>)
    requires LivePath(Summaries(g), first, path, r)
    ensures ValuePath(g, first, way, r) && way[0] == path[0]
    decreases |path|
  {
    hide Needs, Keeps, BlockDefUse;
    SummaryExact(g[path[0]], r);
    SummaryExact(g[path[|path| - 1]], r);
    if Needs(g[path[0]].instrs, r) {
      way := [path[0]];
    } else {
      assert |path| > 1 && path[1] in g[path[0]].succs;
      var rest := ValueOfSummaryPath(g, first, path[1..], r);
      way := [path[0]] + rest;
    }
  }

  lemma SummaryOfValuePath(g: Cfg, first: Label, path: seq<Label>, r: Reg)
    requires ValuePath(g, first, path, r)
    ensures LivePath(Summaries(g), first, path, r)
  {
    hide Needs, Keeps, BlockDefUse;
    forall k | 0 <= k < |path|
      ensures r in BlockDefUse(g[path[k]]).0 <==> Needs(g[path[k]].instrs, r)
      ensures Keeps(g[path[k]].instrs, r) ==> r !in BlockDefUse(g[path[k]]).1
    {
      SummaryExact(g[path[k]], r);
    }
  }

  /** What the iteration computes: a register is live into a block exactly when its
      value can reach an instruction that uses it, along a path without instructions
      that define it and without the entry. */
  lemma LiveInIsPathLiveness(g: Cfg, first: Label, inLive: Lives, outLive: Lives, b: Label, r: Reg)
    requires WellFormed(g) && b in g && Below(Summaries(g), first, inLive)
    requires forall l | l in g :: Solves(Summaries(g), first, inLive, outLive, l)
    ensures r in inLive[b] <==> exists path :: ValuePath(g, first, path, r) && path[0] == b
  {
    hide Below, Solves, Needs, Keeps, BlockDefUse;
    assert Linked(Summaries(g));
    LiveInIsSummaryPath(Summaries(g), first, inLive, outLive, b, r);
    if IsLiveAt(Summaries(g), first, b, r) {
      var path :| LivePath(Summaries(g), first, path, r) && path[0] == b;
      var way := ValueOfSummaryPath(g, first, path, r);
    }
    if path :| ValuePath(g, first, path, r) && path[0] == b {
      SummaryOfValuePath(g, first, path, r);
    }
  }

  lemma {:induction false} LoopNoSpecial(instrs: seq<Instr>, use: set<Reg>, def: set<Reg>)
    ensures DefUseLoop(instrs, use, def).0 !! SPECIAL && DefUseLoop(instrs, use, def).1 !! SPECIAL
  {
    if instrs != [] {
      var use' := PlusListMinus(use, Uses(instrs[0]), def);
      LoopNoSpecial(instrs[1..], use', PlusListMinus(def, Defs(instrs[0]), use'));
    }
  }

  lemma OutNoSpecial(g: Cfg, first: Label, inLive: Lives, outLive: Lives, b: Label)
    requires b in g && Below(Summaries(g), first, inLive) && Solves(Summaries(g), first, inLive, outLive, b)
    ensures outLive[b] !! SPECIAL
  {
    forall l | l in g
      ensures Summaries(g)[l].use !! SPECIAL
    {
      LoopNoSpecial(g[l].instrs, {}, {});
    }
  }

  /** Block boundaries and single instructions agree: what is live into a block
      other than the entry is what its annotated instructions need. */
  lemma LiveInIsTransfer(g: Cfg, first: Label, inLive: Lives, outLive: Lives, b: Label)
    requires b in g && b != first && Below(Summaries(g), first, inLive)
    requires forall l | l in g :: Solves(Summaries(g), first, inLive, outLive, l)
    ensures b in inLive && b in outLive && inLive[b] == BeforeAll(g[b].instrs, outLive[b])
  {
    var infos := Summaries(g);
    assert Solves(infos, first, inLive, outLive, b);
    OutNoSpecial(g, first, inLive, outLive, b);
    SummaryIsTransfer(g[b], outLive[b]);
  }
}

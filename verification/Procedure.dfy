/** The whole allocator: liveness, interference graph, colouring and rewriting. */
module Procedure {
  import opened Machine
  import opened Liveness
  import opened Ifgraph
  import opened Color
  import opened Allocate
  import opened Preserve
  import opened Wrappers

  /** The frame's slots are of their registers' kinds. */
  ghost predicate SlotKinds(t: Color.Target, resident: map<Reg, Slot>) {
    && (forall r | r in resident :: resident[r].float == r.F?)
    && (forall r :: t.slotOf(r).float == r.F?)
  }

  lemma PlacedSound(t: Color.Target, resident: map<Reg, Slot>, mapping: Mapping)
    requires t.Valid() && SlotKinds(t, resident) && Placed(t, resident, mapping)
    ensures Sound(mapping)
  {}

  /** Joined registers of one kind end up in different places. */
  lemma JoinedApart(adj: Adjacency, pairs: set<(Reg, Reg)>, mapping: Mapping, d: Reg, r: Reg)
    requires Represents(adj, pairs) && Proper(adj, mapping) && mapping.Keys == adj.Keys && Sound(mapping)
    requires d != r && (CanInterfere(d, r) ==> (d, r) in pairs && (r, d) in pairs)
    ensures Loc(mapping, d) != Loc(mapping, r)
  {
    LocKind(mapping, d);
    LocKind(mapping, r);
    hide Sound;
  }

  lemma JoinedPairs(xs: set<Reg>, ys: set<Reg>, x: Reg, y: Reg)
    requires x in xs && y in ys && CanInterfere(x, y)
    ensures (x, y) in Joined(xs, ys) && (y, x) in Joined(xs, ys)
  {}

  lemma GraphNoClash(adj: Adjacency, pairs: set<(Reg, Reg)>, mapping: Mapping, i: Instr, live: set<Reg>)
    requires Represents(adj, pairs) && Proper(adj, mapping) && mapping.Keys == adj.Keys && Sound(mapping)
    requires InstrPairs(i, live) <= pairs
    ensures NoClash(mapping, i, live)
  {
    hide Represents, Proper, Sound, Joined, Loc;
    forall d, r | (d in Defs(i) || d in Destroyed(i)) && r in live && d != r
      ensures Loc(mapping, d) != Loc(mapping, r)
    {
      if CanInterfere(d, r) {
        if d in Defs(i) {
          JoinedPairs(ToSet(Defs(i)), live, d, r);
        } else {
          JoinedPairs(ToSet(Destroyed(i)), live, d, r);
        }
      }
      JoinedApart(adj, pairs, mapping, d, r);
    }
  }

  lemma InstrInCfg(g: Cfg, outLive: Lives, b: Label, k: nat)
    requires g.Keys <= outLive.Keys && b in g && k < |g[b].instrs|
    ensures InstrPairs(g[b].instrs[k], BeforeAll(g[b].instrs[k + 1..], outLive[b])) <= CfgPairs(g, outLive, g.Keys)
  {
    hide InstrPairs, Annotate, BeforeAll;
    var instrs, lives := g[b].instrs, Annotate(g[b].instrs, outLive[b]);
    AnnotationIs(instrs, outLive[b], k);
    forall e | e in InstrPairs(instrs[k], lives[k])
      ensures e in CfgPairs(g, outLive, g.Keys)
    {
      assert e in BlockPairs(instrs, lives);
    }
  }

  lemma {:induction false} GraphBlockFits(adj: Adjacency, g: Cfg, outLive: Lives, mapping: Mapping, b: Label, k: nat)
    requires g.Keys <= outLive.Keys && Represents(adj, CfgPairs(g, outLive, g.Keys))
    requires CoversCfg(adj, g, outLive, g.Keys)
    requires Proper(adj, mapping) && mapping.Keys == adj.Keys && Sound(mapping)
    requires b in g && k <= |g[b].instrs| && forall i | i in g[b].instrs :: Allocatable(i)
    ensures BlockFits(mapping, g[b].instrs[k..], outLive[b])
    decreases |g[b].instrs| - k
  {
    hide Represents, Proper, Sound, InstrPairs, Annotate, BeforeAll, CfgPairs, CoversCfg, Allocatable, NoClash, Mapped;
    var instrs := g[b].instrs;
    if k < |instrs| {
      GraphBlockFits(adj, g, outLive, mapping, b, k + 1);
      InstrInCfg(g, outLive, b, k);
      var live := BeforeAll(instrs[k + 1..], outLive[b]);
      GraphNoClash(adj, CfgPairs(g, outLive, g.Keys), mapping, instrs[k], live);
      DefsMapped(adj, g, outLive, mapping, b, k);
      assert instrs[k..][0] == instrs[k] && instrs[k..][1..] == instrs[k + 1..];
      assert instrs[k] in instrs;
    }
  }

  lemma DefsMapped(adj: Adjacency, g: Cfg, outLive: Lives, mapping: Mapping, b: Label, k: nat)
    requires g.Keys <= outLive.Keys && CoversCfg(adj, g, outLive, g.Keys) && mapping.Keys == adj.Keys
    requires b in g && k < |g[b].instrs|
    ensures forall d | d in Defs(g[b].instrs[k]) :: Mapped(mapping, d)
  {
    assert CoversBlock(adj, g[b].instrs, outLive[b], |g[b].instrs|);
    var regs := Annotate(g[b].instrs, outLive[b])[k] + ToSet(Defs(g[b].instrs[k]));
    assert Covered(adj, regs);
    forall d | d in Defs(g[b].instrs[k])
      ensures Mapped(mapping, d)
    {
      assert d in regs;
    }
  }

  /** Liveness, as the analysis leaves it. */
  ghost predicate IsLiveness(g: Cfg, first: Label, inLive: Lives, outLive: Lives) {
    && Linked(Summaries(g)) && Below(Summaries(g), first, inLive) && outLive.Keys == g.Keys
    && forall b | b in g :: Solves(Summaries(g), first, inLive, outLive, b)
  }

  lemma SuccessorLive(g: Cfg, first: Label, inLive: Lives, outLive: Lives, b: Label, l: Label)
    requires IsLiveness(g, first, inLive, outLive) && b in g && l in g && l in g[b].succs && l != first
    ensures BeforeAll(g[l].instrs, outLive[l]) <= outLive[b]
  {
    LiveInIsTransfer(g, first, inLive, outLive, l);
    assert Solves(Summaries(g), first, inLive, outLive, b);
    hide BeforeAll, BlockDefUse;
    assert inLive[l] <= UnionLists(inLive, g[b].succs);
  }

  /** What a colouring of the graph gives the rewritten procedure. */
  lemma {:induction false} ColoredAllocates(adj: Adjacency, g: Cfg, first: Label, inLive: Lives, outLive: Lives,
                                            mapping: Mapping, deleteMoves: bool, codes: Codes)
    requires WellFormed(g) && IsLiveness(g, first, inLive, outLive)
    requires forall b | b in g :: first !in g[b].succs
    requires forall b, i | b in g && i in g[b].instrs :: Allocatable(i)
    requires Represents(adj, CfgPairs(g, outLive, g.Keys)) && CoversCfg(adj, g, outLive, g.Keys)
    requires Proper(adj, mapping) && mapping.Keys == adj.Keys && Sound(mapping)
    requires codes.Keys == g.Keys && forall b | b in g ::
               RewriteAll(mapping, deleteMoves, g[b].instrs) == Some(codes[b])
    ensures Allocated(g, mapping, deleteMoves, outLive, codes)
  {
    hide Represents, Proper, Sound, BeforeAll, CfgPairs, CoversCfg, Allocatable, RewriteAll, BlockFits, IsLiveness;
    LivenessKeys(g, first, inLive, outLive);
    forall b | b in g
      ensures outLive[b] !! SPECIAL && BlockFits(mapping, g[b].instrs, outLive[b])
    {
      LivenessSpecial(g, first, inLive, outLive, b);
      GraphBlockFits(adj, g, outLive, mapping, b, 0);
      assert g[b].instrs[0..] == g[b].instrs;
    }
    forall b, l | b in g && l in g[b].succs
      ensures BeforeAll(g[l].instrs, outLive[l]) <= outLive[b]
    {
      SuccessorLive(g, first, inLive, outLive, b, l);
    }
  }

  lemma LivenessKeys(g: Cfg, first: Label, inLive: Lives, outLive: Lives)
    requires IsLiveness(g, first, inLive, outLive)
    ensures outLive.Keys == g.Keys
  {}

  lemma LivenessSpecial(g: Cfg, first: Label, inLive: Lives, outLive: Lives, b: Label)
    requires IsLiveness(g, first, inLive, outLive) && b in g
    ensures outLive[b] !! SPECIAL
  {
    OutNoSpecial(g, first, inLive, outLive, b);
  }

  /** There is one liveness: the least solution of the equations. */
  lemma OneLiveness(g: Cfg, first: Label, in1: Lives, out1: Lives, in2: Lives, out2: Lives)
    requires IsLiveness(g, first, in1, out1) && IsLiveness(g, first, in2, out2)
    ensures in1 == in2 && out1 == out2
  {
    hide BlockDefUse, Below, Solves;
    assert Summaries(g).Keys == g.Keys;
    hide Summaries;
    LeastSolution(Summaries(g), first, in1, out1, in2, out2);
  }

  /** The interference graph of a procedure with given live sets. */
  ghost function Interference(g: Cfg, outLive: Lives): Adjacency
    requires g.Keys <= outLive.Keys
  {
    map a | a in CfgNodes(g, outLive, g.Keys) :: set e | e in CfgPairs(g, outLive, g.Keys) && e.0 == a :: e.1
  }

  lemma GraphIs(adj: Adjacency, g: Cfg, outLive: Lives)
    requires g.Keys <= outLive.Keys && adj.Keys == CfgNodes(g, outLive, g.Keys)
    requires Represents(adj, CfgPairs(g, outLive, g.Keys)) && forall a | a in adj :: !IsPhysical(a)
    ensures adj == Interference(g, outLive)
  {
    hide CfgNodes, CfgPairs;
    forall a | a in adj
      ensures adj[a] == Interference(g, outLive)[a]
    {
      forall b
        ensures b in adj[a] <==> b in Interference(g, outLive)[a]
      {
        assert (a, b) in CfgPairs(g, outLive, g.Keys) <==> b in adj[a];
      }
    }
  }

  /** How many of the registers must live on the stack, of one kind. */
  function Resident(resident: set<Reg>, float: bool, regs: seq<Reg>): nat {
    if regs == [] then 0
    else (if regs[0] in resident && regs[0].F? == float then 1 else 0) + Resident(resident, float, regs[1..])
  }

  /** The instruction names registers of the graph, and no more that must live on the
      stack than there are temporaries for. */
  predicate Expressible(nodes: set<Reg>, resident: set<Reg>, i: Instr) {
    match i
    case Op(_, defs, uses, _) =>
      && (forall r | r in defs + uses :: IsPhysical(r) || r in nodes)
      && Resident(resident, false, uses) <= 2 && Resident(resident, true, uses) <= 2
      && Resident(resident, false, defs) <= 1 && Resident(resident, true, defs) <= 2
    case Move(src, dst) => IsPhysical(dst) || dst in nodes ==> IsPhysical(src) || src in nodes
  }

  lemma {:induction false} ResidentSpilled(mapping: Mapping, resident: set<Reg>, float: bool, regs: seq<Reg>)
    requires forall r | r in mapping && !IsPhysical(r) :: mapping[r].OnStack? <==> r in resident
    requires forall r | r in resident :: r in mapping && !IsPhysical(r)
    ensures Spilled(mapping, float, regs) == Resident(resident, float, regs)
  {
    if regs != [] {
      ResidentSpilled(mapping, resident, float, regs[1..]);
    }
  }

  /** When only residents are on the stack, what can be rewritten shows in the
      instruction itself. */
  lemma ExpressibleExactly(mapping: Mapping, resident: set<Reg>, i: Instr)
    requires forall r | r in mapping && !IsPhysical(r) :: mapping[r].OnStack? <==> r in resident
    requires forall r | r in resident :: r in mapping && !IsPhysical(r)
    ensures Rewritable(mapping, i) <==> Expressible(mapping.Keys, resident, i)
  {
    hide Spilled, Resident;
    if i.Op? {
      ResidentSpilled(mapping, resident, false, i.uses);
      ResidentSpilled(mapping, resident, true, i.uses);
      ResidentSpilled(mapping, resident, false, i.defs);
      ResidentSpilled(mapping, resident, true, i.defs);
    }
  }

  /** In a graph that is sparse but for the residents nothing else is spilled. */
  lemma SparseExpressible(t: Color.Target, adj: Adjacency, resident: map<Reg, Slot>, rounds: seq<Removed>,
                          mapping: Mapping, i: Instr)
    requires Coloring(t, adj, resident, rounds, mapping) && Sparse(t, adj, adj.Keys - resident.Keys)
    requires resident.Keys <= adj.Keys && forall r | r in resident :: !IsPhysical(r)
    ensures Rewritable(mapping, i) <==> Expressible(adj.Keys, resident.Keys, i)
  {
    OnlyResidents(t, adj, resident, rounds, mapping);
    ExpressibleExactly(mapping, resident.Keys, i);
  }

  lemma OnlyResidents(t: Color.Target, adj: Adjacency, resident: map<Reg, Slot>, rounds: seq<Removed>,
                      mapping: Mapping)
    requires Coloring(t, adj, resident, rounds, mapping) && Sparse(t, adj, adj.Keys - resident.Keys)
    ensures mapping.Keys == adj.Keys && forall r | r in mapping :: mapping[r].OnStack? <==> r in resident
  {
    hide Sparse, Proper, SpilledJustly, Rounds, Select;
  }

  /** Rewrites every block, unless one cannot be. */
  method RewriteBlocks(g: Cfg, mapping: Mapping, deleteMoves: bool) returns (codes: Option<Codes>)
    ensures codes.Some? ==> codes.value.Keys == g.Keys
    ensures codes.Some? ==> forall b | b in g :: RewriteAll(mapping, deleteMoves, g[b].instrs) == Some(codes.value[b])
    ensures codes.None? ==> exists b | b in g :: RewriteAll(mapping, deleteMoves, g[b].instrs).None?
  {
    hide RewriteAll;
    var done: Codes := map[];
    var rest := g.Keys;
    while rest != {}
      invariant rest <= g.Keys && done.Keys == g.Keys - rest
      invariant forall b | b in done :: RewriteAll(mapping, deleteMoves, g[b].instrs) == Some(done[b])
      decreases rest
    {
      var b :| b in rest;
      match RewriteAll(mapping, deleteMoves, g[b].instrs) {
        case None => return None;
        case Some(code) => done := done[b := code];
      }
      rest := rest - {b};
    }
    return Some(done);
  }

  /** The slot allocator does its job: registers that interfere under the procedure's
      liveness have different slots. */
  ghost predicate SlotsServe(t: Color.Target, resident: map<Reg, Slot>, g: Cfg, first: Label) {
    forall inLive, outLive | IsLiveness(g, first, inLive, outLive) ::
      forall a, b {:trigger (a, b) in CfgPairs(g, outLive, g.Keys)} |
        (a, b) in CfgPairs(g, outLive, g.Keys) && !IsPhysical(a) && !IsPhysical(b) ::
        SlotFor(t, resident, a) != SlotFor(t, resident, b)
  }

  lemma ServedApart(t: Color.Target, resident: map<Reg, Slot>, g: Cfg, first: Label, inLive: Lives, outLive: Lives,
                    adj: Adjacency)
    requires SlotsServe(t, resident, g, first) && IsLiveness(g, first, inLive, outLive)
    requires Represents(adj, CfgPairs(g, outLive, g.Keys)) && forall a | a in adj :: !IsPhysical(a)
    ensures SlotsApart(t, adj, resident)
  {
    hide CfgPairs, SlotFor, IsLiveness;
    LivenessKeys(g, first, inLive, outLive);
  }

  /** Allocates registers for a procedure. Liveness is computed, interference built
      from it and coloured with the registers there are, and every block rewritten. The
      result stands for the procedure in every run (see RunsAgree). There is one exactly
      when each register that is to live on the stack is in the graph, and each
      instruction has temporaries enough for what is on the stack; in a graph that is
      sparse but for such registers, enough for those. */
  method AllocateProcedure(g: Cfg, first: Label, t: Color.Target, stackResident: map<Reg, Slot>, deleteMoves: bool)
    returns (mapping: Mapping, codes: Option<Codes>, outLive: Lives, graph: Adjacency,
             ghost inLive: Lives, ghost rounds: seq<Removed>)
    requires WellFormed(g) && first in g && (forall b | b in g :: first !in g[b].succs)
    requires forall b, i | b in g && i in g[b].instrs :: Allocatable(i)
    requires t.Valid() && Tolerant(t) && SlotKinds(t, stackResident) && SlotsServe(t, stackResident, g, first)
    requires (forall r | r in stackResident :: !IsPhysical(r))
    ensures IsLiveness(g, first, inLive, outLive) && outLive.Keys == g.Keys && graph == Interference(g, outLive)
    ensures codes.Some? ==> Allocated(g, mapping, deleteMoves, outLive, codes.value)
    ensures stackResident.Keys <= graph.Keys ==> Coloring(t, graph, stackResident, rounds, mapping)
    ensures codes.Some? <==>
            stackResident.Keys <= graph.Keys && forall b, i | b in g && i in g[b].instrs :: Rewritable(mapping, i)
    ensures stackResident.Keys <= graph.Keys && Sparse(t, graph, graph.Keys - stackResident.Keys) ==>
            (codes.Some? <==>
             forall b, i | b in g && i in g[b].instrs :: Expressible(graph.Keys, stackResident.Keys, i))
  {
    hide Below, Solves, t.Valid, Tolerant, SlotKinds, SlotsServe, Allocatable, RewriteAll, Represents, CoversCfg,
         CfgPairs, CfgNodes, Interference, Coloring, Sparse, Rewritable, Expressible,
         SlotsApart, Proper, Placed, Sound, Allocated, Symmetric, IsLiveness, WellFormed, Linked, Summaries;
    GraphLinked(g);
    var analysis := new Analysis(Summaries(g), first);
    analysis.FindLiveTemps();
    FoundLiveness(g, analysis);
    outLive, inLive := analysis.outLive, analysis.inLive;
    LivenessKeys(g, first, inLive, outLive);
    PhysicalDestroyed(g);
    var igraph := BuildGraph(g, analysis.outLive);
    graph := igraph.adj;
    AllAreNodes(igraph);
    NodesPseudo(graph);
    GraphIs(graph, g, outLive);
    if !(stackResident.Keys <= igraph.all) {
      return map[], None, outLive, graph, inLive, [];
    }
    ServedApart(t, stackResident, g, first, inLive, outLive, graph);
    mapping, rounds := ColorGraph(t, igraph, stackResident);
    ColoringSound(t, graph, stackResident, rounds, mapping);
    codes := RewriteBlocks(g, mapping, deleteMoves);
    if codes.Some? {
      ColoredAllocates(graph, g, first, inLive, outLive, mapping, deleteMoves, codes.value);
    }
    BlocksSucceed(g, mapping, deleteMoves);
    if Sparse(t, graph, graph.Keys - stackResident.Keys) {
      forall b, i | b in g && i in g[b].instrs
        ensures Rewritable(mapping, i) <==> Expressible(graph.Keys, stackResident.Keys, i)
      {
        SparseExpressible(t, graph, stackResident, rounds, mapping, i);
      }
    }
  }

  lemma ColoringSound(t: Color.Target, adj: Adjacency, resident: map<Reg, Slot>, rounds: seq<Removed>,
                      mapping: Mapping)
    requires t.Valid() && SlotKinds(t, resident) && Coloring(t, adj, resident, rounds, mapping)
    ensures Sound(mapping) && Proper(adj, mapping) && mapping.Keys == adj.Keys
  {
    PlacedSound(t, resident, mapping);
  }

  /** All blocks can be rewritten exactly when all instructions can. */
  lemma BlocksSucceed(g: Cfg, mapping: Mapping, deleteMoves: bool)
    requires forall b, i | b in g && i in g[b].instrs :: Allocatable(i)
    ensures (forall b | b in g :: RewriteAll(mapping, deleteMoves, g[b].instrs).Some?) <==>
            forall b, i | b in g && i in g[b].instrs :: Rewritable(mapping, i)
  {
    hide RewriteAll, Rewritable;
    forall b | b in g
      ensures RewriteAll(mapping, deleteMoves, g[b].instrs).Some? <==>
              forall i | i in g[b].instrs :: Rewritable(mapping, i)
    {
      forall i | i in g[b].instrs
        ensures ToSet(Uses(i)) !! TEMPS
      {
        assert Allocatable(i);
      }
      RewriteSucceeds(mapping, deleteMoves, g[b].instrs);
    }
  }

  lemma AllAreNodes(igraph: Graph)
    requires igraph.Valid()
    ensures igraph.all == igraph.adj.Keys
  {}

  lemma GraphLinked(g: Cfg)
    requires WellFormed(g)
    ensures Linked(Summaries(g)) && Summaries(g).Keys == g.Keys
  {}

  lemma FoundLiveness(g: Cfg, analysis: Analysis)
    requires analysis.Valid() && analysis.infos == Summaries(g) && analysis.infos.Keys == g.Keys
    requires forall b | b in analysis.infos ::
               Solves(analysis.infos, analysis.first, analysis.inLive, analysis.outLive, b)
    ensures IsLiveness(g, analysis.first, analysis.inLive, analysis.outLive)
  {}

  lemma PhysicalDestroyed(g: Cfg)
    requires forall b, i | b in g && i in g[b].instrs :: Allocatable(i)
    ensures forall b, i | b in g && i in g[b].instrs :: DestroysPhysical(i)
  {
    forall b, i | b in g && i in g[b].instrs
      ensures DestroysPhysical(i)
    {
      assert Allocatable(i);
    }
  }

  lemma NodesPseudo(adj: Adjacency)
    requires Symmetric(adj)
    ensures forall a | a in adj :: !IsPhysical(a)
  {}
}

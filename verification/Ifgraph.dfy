/** The interference graph: adjacency sets for pseudo-registers only, updated in
    place, and its construction from an annotated control-flow graph. */
module Ifgraph {
  import opened Machine
  import opened Liveness

  type Adjacency = map<Reg, set<Reg>>

  /** Different registers of the same kind. */
  predicate CanInterfere(a: Reg, b: Reg) {
    a.R? == b.R? && a != b
  }

  /** The pairs an adjacency holds after both ends of an edge have been joined. */
  function Joined(xs: set<Reg>, ys: set<Reg>): set<(Reg, Reg)> {
    (set x, y | x in xs && y in ys && CanInterfere(x, y) :: (x, y)) +
    (set x, y | x in xs && y in ys && CanInterfere(x, y) :: (y, x))
  }

  /** The adjacency is exactly this relation, read from pseudo-registers. */
  ghost predicate Represents(adj: Adjacency, pairs: set<(Reg, Reg)>) {
    forall x, y {:trigger (x, y) in pairs} {:trigger y in adj[x]} ::
      !IsPhysical(x) ==> ((x, y) in pairs <==> x in adj && y in adj[x])
  }

  ghost predicate Symmetric(adj: Adjacency) {
    && (forall a | a in adj :: !IsPhysical(a))
    && (forall a, b | a in adj && b in adj[a] :: CanInterfere(a, b))
    && (forall a, b | a in adj && b in adj[a] && !IsPhysical(b) :: b in adj && a in adj[b])
  }

  class Graph {
    var adj: Adjacency
    var all: set<Reg>
    var size: int
    ghost var pairs: set<(Reg, Reg)>

    constructor ()
      ensures adj == map[] && pairs == {} && Valid() && Tracked()
    {
      adj, all, size, pairs := map[], {}, 0, {};
    }

    /** A graph of its own with the same edges. */
    constructor Copy(g: Graph)
      requires g.Valid()
      ensures adj == g.adj && Valid()
    {
      adj, all, size, pairs := g.adj, g.all, g.size, g.pairs;
    }

    /** While a graph is being built: its edges are exactly the pairs asked for. */
    ghost predicate Tracked()
      reads this
    {
      Sized() && Represents(adj, pairs)
    }

    ghost predicate Valid()
      reads this
    {
      all == adj.Keys && size == |all| && Symmetric(adj)
    }

    /** The nodes, physical registers excluded, are the keys. */
    ghost predicate Sized()
      reads this
    {
      all == adj.Keys && size == |all| && forall a | a in adj :: !IsPhysical(a)
    }

    function Degree(n: Reg): nat
      requires n in adj
      reads this
    {
      |adj[n]|
    }

    /** Makes a pseudo-register a node, unless it is one. */
    method InsertNode(n: Reg)
      requires Sized()
      modifies `adj, `all, `size
      ensures Sized()
      ensures adj == if IsPhysical(n) || n in old(adj) then old(adj) else old(adj)[n := {}]
      ensures old(Valid()) ==> Valid()
    {
      if IsPhysical(n) || n in adj {
        return;
      }
      ghost var was := adj;
      adj := adj[n := {}];
      assert all + {n} == adj.Keys;
      all := all + {n};
      size := size + 1;
      if Symmetric(was) {
        InsertedSymmetric(was, n);
      }
      hide Symmetric;
    }

    /** Adds the nodes that can interfere with `a` to its set; `a` must be a node. */
    method AddEdgesDirect(a: Reg, nodes: set<Reg>)
      requires Sized() && (IsPhysical(a) || a in adj)
      modifies this`adj
      ensures Sized() && adj.Keys == old(adj).Keys
      ensures forall x, y {:trigger y in adj[x]} {:trigger y in old(adj)[x]} | x in adj ::
                y in adj[x] <==> y in old(adj)[x] || (x == a && y in nodes && CanInterfere(x, y))
    {
      if IsPhysical(a) {
        return;
      }
      adj := adj[a := adj[a] + set b | b in nodes && CanInterfere(a, b)];
      assert adj.Keys == old(adj).Keys;
    }

    /** Adds `nodes` to the set of each register in the list. */
    method AddEach(list: seq<Reg>, nodes: set<Reg>)
      requires Sized() && forall a | a in list :: IsPhysical(a) || a in adj
      modifies this`adj
      ensures Sized() && adj.Keys == old(adj).Keys
      ensures forall x, y {:trigger y in adj[x]} {:trigger y in old(adj)[x]} | x in adj ::
                y in adj[x] <==> y in old(adj)[x] || (x in list && y in nodes && CanInterfere(x, y))
    {
      for k := 0 to |list|
        invariant Sized() && adj.Keys == old(adj).Keys
        invariant forall x, y {:trigger y in adj[x]} {:trigger y in old(adj)[x]} | x in adj ::
                    y in adj[x] <==> y in old(adj)[x] || (x in list[..k] && y in nodes && CanInterfere(x, y))
      {
        AddEdgesDirect(list[k], nodes);
        assert list[..k + 1] == list[..k] + [list[k]];
      }
      assert list[..|list|] == list;
    }

    /** Joins two lists of one kind, both ways, unless the second is empty. */
    method JoinKind(list1: seq<Reg>, list2: seq<Reg>)
      requires Sized() && forall a | a in list1 || a in list2 :: IsPhysical(a) || a in adj
      modifies this`adj
      ensures Sized() && adj.Keys == old(adj).Keys
      ensures forall x, y {:trigger y in adj[x]} {:trigger y in old(adj)[x]} | x in adj ::
                y in adj[x] <==> || y in old(adj)[x]
                                 || (CanInterfere(x, y) && ((x in list1 && y in list2) || (x in list2 && y in list1)))
    {
      hide CanInterfere;
      if list2 != [] {
        AddEach(list2, ToSet(list1));
        AddEach(list1, ToSet(list2));
      }
    }

    /** Makes every register of the list interfere with every register of the set.
        A single register is joined directly; longer lists are split by kind, and
        a kind with nothing in the set is skipped. */
    method InsertEdges(list: seq<Reg>, live: set<Reg>)
      requires Sized()
      requires forall a | a in list || a in live :: IsPhysical(a) || a in adj
      modifies this`adj
      ensures Sized() && adj.Keys == old(adj).Keys
      ensures forall x, y {:trigger y in adj[x]} {:trigger y in old(adj)[x]} | x in adj ::
        y in adj[x] <==> y in old(adj)[x] || (x, y) in Joined(ToSet(list), live)
    {
      hide Sized;
      if |list| == 1 {
        var node := list[0];
        var others := RegsToSeq(live);
        AddEdgesDirect(node, live);
        AddEach(others, {node});
      } else {
        var all2 := RegsToSeq(live);
        JoinKind(Filter(list, true), Filter(all2, true));
        JoinKind(Filter(list, false), Filter(all2, false));
      }
    }

    /** Takes a removed node out of its neighbours' sets. */
    method Detach(n: Reg, neighbours: seq<Reg>)
      requires n !in adj && forall m | m in neighbours :: IsPhysical(m) || m in adj
      requires forall a | a in adj :: !IsPhysical(a)
      modifies this`adj
      ensures adj.Keys == old(adj).Keys
      ensures forall x, y {:trigger y in adj[x]} {:trigger y in old(adj)[x]} | x in adj ::
        y in adj[x] <==> y in old(adj)[x] && !(x in neighbours && y == n)
    {
      for k := 0 to |neighbours|
        invariant adj.Keys == old(adj).Keys
        invariant forall x, y {:trigger y in adj[x]} {:trigger y in old(adj)[x]} | x in adj ::
          y in adj[x] <==> y in old(adj)[x] && !(x in neighbours[..k] && y == n)
      {
        var m := neighbours[k];
        assert neighbours[..k + 1] == neighbours[..k] + [m];
        if !IsPhysical(m) {
          adj := adj[m := adj[m] - {n}];
          assert adj.Keys == old(adj).Keys;
        }
      }
      assert neighbours[..|neighbours|] == neighbours;
    }

    /** Removes a node. */
    method DeleteNode(n: Reg)
      requires Valid() && n in adj
      modifies this
      ensures Valid() && adj.Keys == old(adj).Keys - {n}
      ensures forall x, y {:trigger y in adj[x]} {:trigger y in old(adj)[x]} | x in adj ::
        y in adj[x] <==> y in old(adj)[x] && y != n
    {
      hide IsPhysical, Symmetric;
      ghost var was := adj;
      SymmetricAt(adj, n);
      var neighbours := RegsToSeq(adj[n]);
      adj := adj - {n};
      Detach(n, neighbours);
      size := size - 1;
      all := all - {n};
      DeletedSymmetric(was, adj, n, neighbours);
    }
  }

  lemma SymmetricAt(adj: Adjacency, n: Reg)
    requires Symmetric(adj) && n in adj
    ensures forall a | a in adj :: !IsPhysical(a)
    ensures forall m | m in adj[n] :: m != n && (IsPhysical(m) || m in adj)
  {}

  lemma InsertedSymmetric(was: Adjacency, n: Reg)
    requires Symmetric(was) && !IsPhysical(n) && n !in was
    ensures Symmetric(was[n := {}])
  {}

  lemma DeletedSymmetric(was: Adjacency, adj: Adjacency, n: Reg, neighbours: seq<Reg>)
    requires Symmetric(was) && n in was && adj.Keys == was.Keys - {n}
    requires forall m :: m in neighbours <==> m in was[n]
    requires forall x, y {:trigger y in adj[x]} {:trigger y in was[x]} | x in adj ::
               y in adj[x] <==> y in was[x] && !(x in neighbours && y == n)
    ensures Symmetric(adj)
    ensures forall x, y {:trigger y in adj[x]} {:trigger y in was[x]} | x in adj ::
      y in adj[x] <==> y in was[x] && y != n
  {
    hide CanInterfere, IsPhysical;
  }

  function Filter(rs: seq<Reg>, ints: bool): (r: seq<Reg>)
    ensures forall x :: x in r <==> x in rs && x.R? == ints
  {
    if rs == [] then []
    else if rs[0].R? == ints then [rs[0]] + Filter(rs[1..], ints)
    else Filter(rs[1..], ints)
  }

  method RegsToSeq(s: set<Reg>) returns (r: seq<Reg>)
    ensures forall x :: x in r <==> x in s
    ensures forall i, j | 0 <= i < j < |r| :: r[i] != r[j]
  {
    r := [];
    var rest := s;
    while rest != {}
      invariant rest <= s
      invariant forall x :: x in r <==> x in s - rest
      invariant forall i, j | 0 <= i < j < |r| :: r[i] != r[j]
      decreases rest
    {
      var x :| x in rest;
      assert forall i | 0 <= i < |r| :: r[i] in r;
      r := r + [x];
      rest := rest - {x};
    }
  }

  /** What an instruction makes interfere: what it defines, and what a call
      destroys, with everything live after it. */
  function InstrPairs(i: Instr, live: set<Reg>): set<(Reg, Reg)> {
    Joined(ToSet(Defs(i)), live) + Joined(ToSet(Destroyed(i)), live)
  }

  ghost function BlockPairs(instrs: seq<Instr>, lives: seq<set<Reg>>): set<(Reg, Reg)>
    requires |lives| == |instrs|
  {
    set k, e | 0 <= k < |instrs| && e in InstrPairs(instrs[k], lives[k]) :: e
  }

  ghost function CfgPairs(g: Cfg, outLive: Lives, labels: set<Label>): set<(Reg, Reg)>
    requires labels <= g.Keys <= outLive.Keys
  {
    set b, e | b in labels && e in BlockPairs(g[b].instrs, Annotate(g[b].instrs, outLive[b])) :: e
  }

  /** Calls destroy physical registers only. */
  predicate DestroysPhysical(i: Instr) {
    forall r | r in Destroyed(i) :: IsPhysical(r)
  }

  /** Pseudo-registers that appear as nodes. */
  predicate Covered(adj: Adjacency, regs: set<Reg>) {
    forall r | r in regs :: IsPhysical(r) || r in adj
  }

  function Pseudos(regs: set<Reg>): set<Reg> { set r | r in regs && !IsPhysical(r) }

  /** The pseudo-registers of a block: what is defined, or live behind an instruction. */
  ghost function BlockNodes(instrs: seq<Instr>, lives: seq<set<Reg>>): set<Reg>
    requires |lives| == |instrs|
  {
    set k, r | 0 <= k < |instrs| && r in Pseudos(lives[k] + ToSet(Defs(instrs[k]))) :: r
  }

  ghost function CfgNodes(g: Cfg, outLive: Lives, labels: set<Label>): set<Reg>
    requires labels <= g.Keys <= outLive.Keys
  {
    set b, r | b in labels && r in BlockNodes(g[b].instrs, Annotate(g[b].instrs, outLive[b])) :: r
  }

  method InsertTracked(graph: Graph, n: Reg)
    requires graph.Tracked()
    modifies graph
    ensures graph.Tracked() && graph.pairs == old(graph.pairs)
    ensures graph.adj.Keys == old(graph.adj).Keys + if IsPhysical(n) then {} else {n}
  {
    hide IsPhysical, Symmetric;
    graph.InsertNode(n);
  }

  method InsertNodes(graph: Graph, regs: seq<Reg>)
    requires graph.Tracked()
    modifies graph
    ensures graph.Tracked() && graph.pairs == old(graph.pairs)
    ensures graph.adj.Keys == old(graph.adj).Keys + Pseudos(ToSet(regs)) && Covered(graph.adj, ToSet(regs))
  {
    hide Pseudos, ToSet, Covered, IsPhysical, graph.Tracked;
    NoPseudos(regs);
    for k := 0 to |regs|
      invariant graph.Tracked() && graph.pairs == old(graph.pairs)
      invariant graph.adj.Keys == old(graph.adj).Keys + Pseudos(ToSet(regs[..k]))
    {
      PseudosSnoc(regs, k);
      InsertTracked(graph, regs[k]);
    }
    assert regs[..|regs|] == regs;
    PseudosCover(graph.adj, ToSet(regs));
  }

  lemma NoPseudos(regs: seq<Reg>)
    ensures Pseudos(ToSet(regs[..0])) == {}
  {}

  lemma PseudosSnoc(regs: seq<Reg>, k: nat)
    requires k < |regs|
    ensures Pseudos(ToSet(regs[..k + 1])) == Pseudos(ToSet(regs[..k])) + if IsPhysical(regs[k]) then {} else {regs[k]}
  {
    hide IsPhysical;
    assert regs[..k + 1] == regs[..k] + [regs[k]];
  }

  lemma PseudosCover(adj: Adjacency, regs: set<Reg>)
    requires Pseudos(regs) <= adj.Keys
    ensures Covered(adj, regs)
  {
    hide IsPhysical;
    forall r | r in regs && !IsPhysical(r)
      ensures r in adj
    {
      assert r in Pseudos(regs);
    }
  }

  /** Inserts edges and records the pairs. */
  method JoinTracked(graph: Graph, list: seq<Reg>, live: set<Reg>)
    requires graph.Tracked() && Covered(graph.adj, ToSet(list)) && Covered(graph.adj, live)
    modifies graph
    ensures graph.Tracked() && graph.adj.Keys == old(graph.adj).Keys
    ensures graph.pairs == old(graph.pairs) + Joined(ToSet(list), live)
  {
    hide CanInterfere;
    graph.InsertEdges(list, live);
    graph.pairs := graph.pairs + Joined(ToSet(list), live);
  }

  /** One instruction: its definitions become nodes and interfere, one by one,
      with what is live; what a call destroys interferes too. */
  method ProcessInstr(graph: Graph, i: Instr, live: set<Reg>)
    requires graph.Tracked() && DestroysPhysical(i)
    requires Covered(graph.adj, live - ToSet(Defs(i)))
    modifies graph
    ensures graph.Tracked() && graph.pairs == old(graph.pairs) + InstrPairs(i, live)
    ensures graph.adj.Keys == old(graph.adj).Keys + Pseudos(ToSet(Defs(i)))
    ensures Covered(graph.adj, live + ToSet(Defs(i)))
  {
    hide graph.Tracked, Joined;
    var defs := Defs(i);
    InsertNodes(graph, defs);
    ghost var keys := graph.adj.Keys;
    assert DefPairs(defs[..0], live) == {};
    for k := 0 to |defs|
      invariant graph.Tracked() && graph.adj.Keys == keys
      invariant graph.pairs == old(graph.pairs) + DefPairs(defs[..k], live)
    {
      hide DefPairs;
      JoinTracked(graph, [defs[k]], live);
      DefPairsSnoc(defs, k, live);
    }
    assert defs[..|defs|] == defs;
    DefPairsAll(defs, live);
    if i.Op? {
      JoinTracked(graph, i.destroyed, live);
    } else {
      MoveDestroysNothing(i, live);
    }
  }

  lemma MoveDestroysNothing(i: Instr, live: set<Reg>)
    requires i.Move?
    ensures Joined(ToSet(Destroyed(i)), live) == {}
  {}

  ghost function DefPairs(defs: seq<Reg>, live: set<Reg>): set<(Reg, Reg)> {
    set d, e | d in defs && e in Joined({d}, live) :: e
  }

  lemma DefPairsSnoc(defs: seq<Reg>, k: nat, live: set<Reg>)
    requires k < |defs|
    ensures DefPairs(defs[..k + 1], live) == DefPairs(defs[..k], live) + Joined(ToSet([defs[k]]), live)
  {
    hide Joined;
    assert defs[..k + 1] == defs[..k] + [defs[k]];
    assert ToSet([defs[k]]) == {defs[k]};
  }

  lemma DefPairsAll(defs: seq<Reg>, live: set<Reg>)
    ensures DefPairs(defs, live) == Joined(ToSet(defs), live)
  {
    hide CanInterfere;
    forall e | e in Joined(ToSet(defs), live)
      ensures e in DefPairs(defs, live)
    {
      if e.0 in defs && e.1 in live {
        assert e in Joined({e.0}, live) || (e.1 in defs && e in Joined({e.1}, live));
      } else {
        assert e in Joined({e.1}, live);
      }
    }
  }

  /** Each annotation adds at most what its instruction defines. */
  lemma {:induction false} AnnotationStep(instrs: seq<Instr>, live: set<Reg>, k: nat)
    requires k + 1 < |instrs|
    ensures var lives := Annotate(instrs, live);
            lives[k + 1] - ToSet(Defs(instrs[k + 1])) <= lives[k]
  {
    AnnotationIs(instrs, live, k);
    AnnotationIs(instrs, live, k + 1);
    assert instrs[k + 1..][0] == instrs[k + 1] && instrs[k + 1..][1..] == instrs[k + 2..];
  }

  /** What the block's instructions up to `k` need as nodes. */
  ghost predicate CoversBlock(adj: Adjacency, instrs: seq<Instr>, live: set<Reg>, k: nat) {
    forall j | 0 <= j < k && j < |instrs| :: Covered(adj, Annotate(instrs, live)[j] + ToSet(Defs(instrs[j])))
  }

  lemma {:induction false} NextCovered(adj: Adjacency, instrs: seq<Instr>, live: set<Reg>, k: nat)
    requires k < |instrs| && CoversBlock(adj, instrs, live, k)
    requires k == 0 ==> Covered(adj, Annotate(instrs, live)[0])
    ensures Covered(adj, Annotate(instrs, live)[k] - ToSet(Defs(instrs[k])))
  {
    hide Annotate;
    if k > 0 {
      AnnotationStep(instrs, live, k - 1);
      assert Covered(adj, Annotate(instrs, live)[k - 1] + ToSet(Defs(instrs[k - 1])));
    }
  }

  lemma {:induction false} StillCovered(adj: Adjacency, was: Adjacency, instrs: seq<Instr>, live: set<Reg>, k: nat)
    requires CoversBlock(was, instrs, live, k) && was.Keys <= adj.Keys && k < |instrs|
    requires Covered(adj, Annotate(instrs, live)[k] + ToSet(Defs(instrs[k])))
    ensures CoversBlock(adj, instrs, live, k + 1)
  {
    hide Annotate;
  }

  /** The pairs of a block's instructions up to `k`. */
  ghost function PairsUpTo(instrs: seq<Instr>, live: set<Reg>, k: nat): set<(Reg, Reg)>
    requires k <= |instrs|
  {
    BlockPairs(instrs[..k], Annotate(instrs, live)[..k])
  }

  method ProcessBlock(graph: Graph, instrs: seq<Instr>, live: set<Reg>)
    requires graph.Tracked()
    requires forall i | i in instrs :: DestroysPhysical(i)
    modifies graph
    ensures graph.Tracked() && graph.pairs == old(graph.pairs) + BlockPairs(instrs, Annotate(instrs, live))
    ensures old(graph.adj).Keys <= graph.adj.Keys && CoversBlock(graph.adj, instrs, live, |instrs|)
    ensures graph.adj.Keys <= old(graph.adj).Keys + BlockNodes(instrs, Annotate(instrs, live))
  {
    hide graph.Tracked, Annotate, ToSet, DestroysPhysical, InstrPairs;
    var lives := Annotate(instrs, live);
    if instrs != [] {
      var nodes := RegsToSeq(lives[0]);
      InsertNodes(graph, nodes);
      ToSetOf(nodes, lives[0]);
      NodesOf(instrs, lives, 0);
    }
    BlockStart(graph.adj, instrs, live, graph.pairs);
    hide Covered, CoversBlock, PairsUpTo, BlockNodes, Pseudos;
    for k := 0 to |instrs|
      invariant graph.Tracked() && old(graph.adj).Keys <= graph.adj.Keys
      invariant graph.pairs == old(graph.pairs) + PairsUpTo(instrs, live, k)
      invariant k == 0 && instrs != [] ==> Covered(graph.adj, lives[0])
      invariant graph.adj.Keys <= old(graph.adj).Keys + BlockNodes(instrs, lives)
      invariant CoversBlock(graph.adj, instrs, live, k)
    {
      ghost var was := graph.adj;
      NodesOf(instrs, lives, k);
      NextCovered(graph.adj, instrs, live, k);
      ProcessInstr(graph, instrs[k], lives[k]);
      StillCovered(graph.adj, was, instrs, live, k);
      PairsSnoc(instrs, live, k);
    }
    PairsDone(instrs, live);
  }

  lemma NodesOf(instrs: seq<Instr>, lives: seq<set<Reg>>, k: nat)
    requires k < |instrs| == |lives|
    ensures Pseudos(lives[k]) <= BlockNodes(instrs, lives)
    ensures Pseudos(ToSet(Defs(instrs[k]))) <= BlockNodes(instrs, lives)
  {
    forall r | r in Pseudos(lives[k]) || r in Pseudos(ToSet(Defs(instrs[k])))
      ensures r in BlockNodes(instrs, lives)
    {
      assert r in Pseudos(lives[k] + ToSet(Defs(instrs[k])));
    }
  }

  lemma {:induction false} PairsSnoc(instrs: seq<Instr>, live: set<Reg>, k: nat)
    requires k < |instrs|
    ensures PairsUpTo(instrs, live, k + 1)
         == PairsUpTo(instrs, live, k) + InstrPairs(instrs[k], Annotate(instrs, live)[k])
  {
    BlockPairsSnoc(instrs, Annotate(instrs, live), k);
  }

  lemma {:induction false} PairsDone(instrs: seq<Instr>, live: set<Reg>)
    ensures PairsUpTo(instrs, live, |instrs|) == BlockPairs(instrs, Annotate(instrs, live))
  {
    hide BlockPairs, Annotate;
    assert instrs[..|instrs|] == instrs && Annotate(instrs, live)[..|instrs|] == Annotate(instrs, live);
  }

  lemma ToSetOf(nodes: seq<Reg>, regs: set<Reg>)
    requires forall x :: x in nodes <==> x in regs
    ensures ToSet(nodes) == regs
  {}

  lemma BlockStart(adj: Adjacency, instrs: seq<Instr>, live: set<Reg>, pairs: set<(Reg, Reg)>)
    ensures pairs == pairs + PairsUpTo(instrs, live, 0) && CoversBlock(adj, instrs, live, 0)
  {
    assert PairsUpTo(instrs, live, 0) == {};
  }

  lemma BlockPairsSnoc(instrs: seq<Instr>, lives: seq<set<Reg>>, k: nat)
    requires k < |instrs| == |lives|
    ensures BlockPairs(instrs[..k + 1], lives[..k + 1])
         == BlockPairs(instrs[..k], lives[..k]) + InstrPairs(instrs[k], lives[k])
  {
    hide InstrPairs;
    var all, front := BlockPairs(instrs[..k + 1], lives[..k + 1]), BlockPairs(instrs[..k], lives[..k]);
    forall e
      ensures e in all <==> e in front || e in InstrPairs(instrs[k], lives[k])
    {
      if e in InstrPairs(instrs[k], lives[k]) {
        assert instrs[..k + 1][k] == instrs[k] && lives[..k + 1][k] == lives[k];
      }
      if e in front {
        var j :| 0 <= j < k && e in InstrPairs(instrs[..k][j], lives[..k][j]);
        assert instrs[..k + 1][j] == instrs[j] && lives[..k + 1][j] == lives[j];
      }
      if e in all {
        var j :| 0 <= j < k + 1 && e in InstrPairs(instrs[..k + 1][j], lives[..k + 1][j]);
        if j < k {
          assert instrs[..k][j] == instrs[j] && lives[..k][j] == lives[j];
        }
      }
    }
  }

  /** Every pseudo-register defined or live anywhere is a node. */
  ghost predicate CoversCfg(adj: Adjacency, g: Cfg, outLive: Lives, labels: set<Label>)
    requires labels <= g.Keys <= outLive.Keys
  {
    forall b | b in labels :: CoversBlock(adj, g[b].instrs, outLive[b], |g[b].instrs|)
  }

  method ProcessLabel(graph: Graph, g: Cfg, outLive: Lives, ghost done: set<Label>, b: Label)
    requires g.Keys <= outLive.Keys && done <= g.Keys && b in g
    requires forall i | i in g[b].instrs :: DestroysPhysical(i)
    requires graph.Tracked() && graph.pairs == CfgPairs(g, outLive, done) && CoversCfg(graph.adj, g, outLive, done)
    requires graph.adj.Keys <= CfgNodes(g, outLive, g.Keys)
    modifies graph
    ensures graph.Tracked() && graph.pairs == CfgPairs(g, outLive, done + {b})
    ensures CoversCfg(graph.adj, g, outLive, done + {b}) && graph.adj.Keys <= CfgNodes(g, outLive, g.Keys)
  {
    hide BlockNodes, graph.Tracked, CfgPairs, BlockPairs, Annotate, CoversCfg, CoversBlock, DestroysPhysical;
    ghost var was := graph.adj;
    ProcessBlock(graph, g[b].instrs, outLive[b]);
    assert BlockNodes(g[b].instrs, Annotate(g[b].instrs, outLive[b])) <= CfgNodes(g, outLive, g.Keys);
    CfgPairsAdd(g, outLive, done, b);
    CoversAdd(graph.adj, was, g, outLive, done, b);
  }

  /** The graph of a whole procedure holds exactly the pseudo-registers defined or live
      behind an instruction, and exactly the edges the instructions ask for; it is
      symmetric. */
  method BuildGraph(g: Cfg, outLive: Lives) returns (graph: Graph)
    requires g.Keys <= outLive.Keys
    requires forall b, i | b in g && i in g[b].instrs :: DestroysPhysical(i)
    ensures fresh(graph) && graph.Valid()
    ensures Represents(graph.adj, CfgPairs(g, outLive, g.Keys))
    ensures CoversCfg(graph.adj, g, outLive, g.Keys) && graph.adj.Keys == CfgNodes(g, outLive, g.Keys)
  {
    hide CfgPairs, CfgNodes, CoversCfg, DestroysPhysical, Represents, Symmetric;
    graph := new Graph();
    NothingCovered(graph.adj, g, outLive);
    assert g.Keys - g.Keys == {};
    hide graph.Tracked, graph.Valid;
    var rest := g.Keys;
    while rest != {}
      invariant graph.Tracked() && fresh(graph) && rest <= g.Keys
      invariant graph.pairs == CfgPairs(g, outLive, g.Keys - rest)
      invariant CoversCfg(graph.adj, g, outLive, g.Keys - rest)
      invariant graph.adj.Keys <= CfgNodes(g, outLive, g.Keys)
      decreases rest
    {
      var b :| b in rest;
      ProcessLabel(graph, g, outLive, g.Keys - rest, b);
      assert g.Keys - rest + {b} == g.Keys - (rest - {b});
      rest := rest - {b};
    }
    assert g.Keys - rest == g.Keys;
    GraphDone(graph, g, outLive);
    AllNodes(graph.adj, g, outLive);
  }

  lemma AllNodes(adj: Adjacency, g: Cfg, outLive: Lives)
    requires g.Keys <= outLive.Keys && CoversCfg(adj, g, outLive, g.Keys)
    ensures CfgNodes(g, outLive, g.Keys) <= adj.Keys
  {
    hide Annotate;
    forall r | r in CfgNodes(g, outLive, g.Keys)
      ensures r in adj
    {
      var b :| b in g && r in BlockNodes(g[b].instrs, Annotate(g[b].instrs, outLive[b]));
      var k :| 0 <= k < |g[b].instrs| &&
               r in Pseudos(Annotate(g[b].instrs, outLive[b])[k] + ToSet(Defs(g[b].instrs[k])));
      assert CoversBlock(adj, g[b].instrs, outLive[b], |g[b].instrs|);
    }
  }

  lemma NothingCovered(adj: Adjacency, g: Cfg, outLive: Lives)
    requires g.Keys <= outLive.Keys
    ensures CoversCfg(adj, g, outLive, {}) && CfgPairs(g, outLive, {}) == {}
  {}

  lemma GraphDone(graph: Graph, g: Cfg, outLive: Lives)
    requires g.Keys <= outLive.Keys && graph.Tracked() && graph.pairs == CfgPairs(g, outLive, g.Keys)
    ensures graph.Valid() && Represents(graph.adj, CfgPairs(g, outLive, g.Keys))
  {
    hide CfgPairs;
    PairsSymmetric(graph.adj, g, outLive);
  }

  lemma CoversAdd(adj: Adjacency, was: Adjacency, g: Cfg, outLive: Lives, labels: set<Label>, b: Label)
    requires labels <= g.Keys <= outLive.Keys && b in g && was.Keys <= adj.Keys
    requires CoversCfg(was, g, outLive, labels)
    requires CoversBlock(adj, g[b].instrs, outLive[b], |g[b].instrs|)
    ensures CoversCfg(adj, g, outLive, labels + {b})
  {
    hide Annotate;
  }

  lemma CfgPairsAdd(g: Cfg, outLive: Lives, labels: set<Label>, b: Label)
    requires labels <= g.Keys <= outLive.Keys && b in g
    ensures CfgPairs(g, outLive, labels + {b})
         == CfgPairs(g, outLive, labels) + BlockPairs(g[b].instrs, Annotate(g[b].instrs, outLive[b]))
  {
    hide BlockPairs, Annotate;
    forall e | e in BlockPairs(g[b].instrs, Annotate(g[b].instrs, outLive[b]))
      ensures e in CfgPairs(g, outLive, labels + {b})
    {
      assert b in labels + {b};
    }
    forall e | e in CfgPairs(g, outLive, labels)
      ensures e in CfgPairs(g, outLive, labels + {b})
    {
      var l :| l in labels && e in BlockPairs(g[l].instrs, Annotate(g[l].instrs, outLive[l]));
      assert l in labels + {b};
    }
  }

  lemma PairsSymmetric(adj: Adjacency, g: Cfg, outLive: Lives)
    requires g.Keys <= outLive.Keys && Represents(adj, CfgPairs(g, outLive, g.Keys))
    requires forall a | a in adj :: !IsPhysical(a)
    ensures Symmetric(adj)
  {
    forall a, b | a in adj && b in adj[a]
      ensures CanInterfere(a, b) && (IsPhysical(b) || (b in adj && a in adj[b]))
    {
      assert (a, b) in CfgPairs(g, outLive, g.Keys);
      CfgPairSwaps(g, outLive, a, b);
    }
  }

  lemma CfgPairSwaps(g: Cfg, outLive: Lives, a: Reg, b: Reg)
    requires g.Keys <= outLive.Keys && (a, b) in CfgPairs(g, outLive, g.Keys)
    ensures CanInterfere(a, b) && (b, a) in CfgPairs(g, outLive, g.Keys)
  {
    hide BlockPairs;
    var l :| l in g && (a, b) in BlockPairs(g[l].instrs, Annotate(g[l].instrs, outLive[l]));
    BlockPairSwaps(g[l].instrs, Annotate(g[l].instrs, outLive[l]), a, b);
  }

  lemma BlockPairSwaps(instrs: seq<Instr>, lives: seq<set<Reg>>, a: Reg, b: Reg)
    requires |lives| == |instrs| && (a, b) in BlockPairs(instrs, lives)
    ensures CanInterfere(a, b) && (b, a) in BlockPairs(instrs, lives)
  {
    var k :| 0 <= k < |instrs| && (a, b) in InstrPairs(instrs[k], lives[k]);
    assert (b, a) in InstrPairs(instrs[k], lives[k]);
  }
}

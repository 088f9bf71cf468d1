/** Colouring the interference graph: nodes are removed into a stack, those of
    low degree and those of very high degree first, and given registers in the
    opposite order. */
module Color {
  import opened Machine
  import opened Ifgraph
  import opened Wrappers
  import opened Counting

  /** A stack location for an integer or a floating-point register. */
  datatype Slot = Slot(float: bool, n: int)

  datatype Assign = InReg(r: Reg) | OnStack(s: Slot)

  type Mapping = map<Reg, Assign>

  /** The registers to allocate, the slot the frame gives each spilled register,
      and the preference of a pseudo-register for a physical one. */
  datatype Target = Target(iregs: seq<Reg>, fregs: seq<Reg>, slotOf: Reg -> Slot, bias: (Reg, Reg) -> int) {
    function Regs(node: Reg): seq<Reg> { if node.R? then iregs else fregs }

    ghost predicate Valid() {
      && (forall r | r in iregs :: r.R? && IsPhysical(r) && r !in SPECIAL)
      && (forall r | r in fregs :: r.F? && IsPhysical(r) && r !in SPECIAL)
      && (forall i, j | 0 <= i < j < |iregs| :: iregs[i] != iregs[j])
      && (forall i, j | 0 <= i < j < |fregs| :: fregs[i] != fregs[j])
    }
  }

  function RegNum(r: Reg): int { r.n }

  /** The best of the registers, from a bias and a register to beat. */
  function BestReg(t: Target, node: Reg, regs: seq<Reg>, bias: int, best: Reg): Reg {
    if regs == [] then best
    else
      var b := t.bias(node, regs[0]);
      if b > bias || (b == bias && RegNum(regs[0]) < RegNum(best)) then BestReg(t, node, regs[1..], b, regs[0])
      else BestReg(t, node, regs[1..], bias, best)
  }

  const WORST := -1000000

  function NeighborColors(mapping: Mapping, nbrs: set<Reg>): set<Reg> {
    (set n | n in nbrs && IsPhysical(n)) +
    (set n | n in nbrs && !IsPhysical(n) && n in mapping && mapping[n].InReg? :: mapping[n].r)
  }

  function Available(regs: seq<Reg>, taken: set<Reg>): (r: seq<Reg>)
    ensures forall x :: x in r <==> x in regs && x !in taken
  {
    if regs == [] then []
    else if regs[0] in taken then Available(regs[1..], taken)
    else [regs[0]] + Available(regs[1..], taken)
  }

  /** A register no neighbour has, unless there is none or there are too many
      neighbours to look at. */
  function ChooseReg(t: Target, adj: Adjacency, mapping: Mapping, node: Reg): Option<Reg>
    requires node in adj
  {
    if |adj[node]| > 128 then None
    else
      var regs := Available(t.Regs(node), NeighborColors(mapping, adj[node]));
      if |regs| == 0 then None else Some(BestReg(t, node, regs, WORST, node))
  }

  function Place(t: Target, adj: Adjacency, mapping: Mapping, node: Reg): Assign
    requires node in adj
  {
    var r := ChooseReg(t, adj, mapping, node);
    if r.Some? then InReg(r.value) else OnStack(t.slotOf(node))
  }

  function Select(t: Target, adj: Adjacency, mapping: Mapping, stack: seq<Reg>): Mapping
    requires forall n | n in stack :: n in adj
    decreases stack
  {
    if stack == [] then mapping
    else Select(t, adj, mapping[stack[0] := Place(t, adj, mapping, stack[0])], stack[1..])
  }

  /** One register is preferred to another: by its bias, or by its number. */
  predicate Beats(t: Target, node: Reg, r: Reg, bias: int, best: Reg) {
    t.bias(node, r) > bias || (t.bias(node, r) == bias && RegNum(r) < RegNum(best))
  }

  /** The search starts from the pseudo-register itself with a poor bias; it ends
      in one of the registers exactly when one of them beats that, and nothing beats
      the one it ends in. */
  lemma {:induction false} BestRegIsRegister(t: Target, node: Reg, regs: seq<Reg>, bias: int, best: Reg)
    ensures var r := BestReg(t, node, regs, bias, best);
            && r in regs + [best]
            && (best !in regs ==> (r != best <==> exists x | x in regs :: Beats(t, node, x, bias, best)))
            && (r != best ==> Beats(t, node, r, bias, best))
            && (best !in regs || bias == t.bias(node, best) ==>
                  forall x | x in regs :: !Beats(t, node, x, if r == best then bias else t.bias(node, r), r))
  {
    if regs != [] {
      var r, rest := regs[0], regs[1..];
      assert regs == [r] + rest;
      var b := t.bias(node, r);
      if Beats(t, node, r, bias, best) {
        BestRegIsRegister(t, node, rest, b, r);
      } else {
        BestRegIsRegister(t, node, rest, bias, best);
      }
    }
  }

  /** No register is so disliked that the search would miss it. */
  ghost predicate Tolerant(t: Target) {
    forall node, r :: t.bias(node, r) > WORST
  }

  lemma {:induction false} BestRegChosen(t: Target, node: Reg, regs: seq<Reg>)
    requires Tolerant(t) && regs != [] && node !in regs
    ensures var r := BestReg(t, node, regs, WORST, node);
            r in regs && forall x | x in regs :: !Beats(t, node, x, t.bias(node, r), r)
  {
    BestRegIsRegister(t, node, regs, WORST, node);
    assert regs[0] in regs && t.bias(node, regs[0]) > WORST;
  }

  // ---- what a colouring promises ------------------------------------------

  /** Neighbours, physical ones included, share neither a register nor a slot. */
  ghost predicate Proper(adj: Adjacency, mapping: Mapping) {
    forall a, b {:trigger b in adj[a]} | a in adj && a in mapping && b in adj[a] ::
      if IsPhysical(b) then mapping[a] != InReg(b) else b in mapping ==> mapping[a] != mapping[b]
  }

  function SlotFor(t: Target, resident: map<Reg, Slot>, a: Reg): Slot {
    if a in resident then resident[a] else t.slotOf(a)
  }

  /** The places of the registers that must live on the stack. */
  function Residents(resident: map<Reg, Slot>): Mapping { map n | n in resident :: OnStack(resident[n]) }

  /** The frame gives interfering registers different slots. */
  ghost predicate SlotsApart(t: Target, adj: Adjacency, resident: map<Reg, Slot>) {
    forall a, b {:trigger b in adj[a]} | a in adj && b in adj[a] && !IsPhysical(b) ::
      SlotFor(t, resident, a) != SlotFor(t, resident, b)
  }

  /** Registers come from the right file, slots from the frame. */
  ghost predicate Placed(t: Target, resident: map<Reg, Slot>, mapping: Mapping) {
    forall a | a in mapping ::
      if mapping[a].InReg? then a !in resident && mapping[a].r in t.Regs(a)
      else mapping[a].s == SlotFor(t, resident, a)
  }

  lemma PlaceProper(t: Target, adj: Adjacency, resident: map<Reg, Slot>, mapping: Mapping, node: Reg)
    requires t.Valid() && Tolerant(t) && Symmetric(adj) && SlotsApart(t, adj, resident)
    requires Proper(adj, mapping) && Placed(t, resident, mapping) && mapping.Keys <= adj.Keys
    requires node in adj && node !in mapping && node !in resident
    ensures var m := mapping[node := Place(t, adj, mapping, node)]; Proper(adj, m) && Placed(t, resident, m)
  {
    PlaceFits(t, adj, mapping, node);
    var m := mapping[node := Place(t, adj, mapping, node)];
    hide Place, CanInterfere, NeighborColors, Available;
    forall a, b | a in adj && a in m && b in adj[a]
      ensures if IsPhysical(b) then m[a] != InReg(b) else b in m ==> m[a] != m[b]
    {
      if a == node {
        SelfFree(adj, node);
      } else if b == node {
        assert a in adj[node];
      }
    }
  }

  lemma SelfFree(adj: Adjacency, node: Reg)
    requires Symmetric(adj) && node in adj
    ensures node !in adj[node] && !IsPhysical(node)
  {}

  /** A neighbour has the register. */
  ghost predicate Taken(nbrs: set<Reg>, mapping: Mapping, r: Reg) {
    exists b :: b in nbrs && if IsPhysical(b) then b == r else b in mapping && mapping[b] == InReg(r)
  }

  lemma TakenColors(nbrs: set<Reg>, mapping: Mapping, r: Reg)
    ensures r in NeighborColors(mapping, nbrs) <==> Taken(nbrs, mapping, r)
  {}

  /** A node goes to the stack exactly when it has too many neighbours or they have all
      the registers; otherwise to the register of the right file it prefers among those
      no neighbour has. */
  lemma PlaceFits(t: Target, adj: Adjacency, mapping: Mapping, node: Reg)
    requires t.Valid() && Tolerant(t) && Symmetric(adj) && node in adj
    ensures var p := Place(t, adj, mapping, node);
            && (p.OnStack? <==> |adj[node]| > 128 || forall r | r in t.Regs(node) :: Taken(adj[node], mapping, r))
            && if p.InReg? then
                 && p.r in t.Regs(node) && !Taken(adj[node], mapping, p.r)
                 && forall r | r in t.Regs(node) && !Taken(adj[node], mapping, r) ::
                      !Beats(t, node, r, t.bias(node, p.r), p.r)
               else p.s == t.slotOf(node)
  {
    var p := Place(t, adj, mapping, node);
    var taken := NeighborColors(mapping, adj[node]);
    var regs := Available(t.Regs(node), taken);
    forall r: Reg
      ensures r in taken <==> Taken(adj[node], mapping, r)
    {
      TakenColors(adj[node], mapping, r);
    }
    hide Taken, NeighborColors;
    SelfFree(adj, node);
    assert node !in regs;
    if regs != [] {
      assert regs[0] in regs;
      BestRegChosen(t, node, regs);
    }
    hide Beats, Symmetric, Tolerant;
  }

  /** Selection places the whole stack, and neighbours apart. */
  lemma {:induction false} SelectProper(t: Target, adj: Adjacency, resident: map<Reg, Slot>, mapping: Mapping,
                                        stack: seq<Reg>)
    requires t.Valid() && Tolerant(t) && Symmetric(adj) && SlotsApart(t, adj, resident)
    requires Proper(adj, mapping) && Placed(t, resident, mapping) && mapping.Keys <= adj.Keys
    requires forall n | n in stack :: n in adj && n !in mapping && n !in resident
    requires forall i, j | 0 <= i < j < |stack| :: stack[i] != stack[j]
    ensures var m := Select(t, adj, mapping, stack);
            && Proper(adj, m) && Placed(t, resident, m)
            && m.Keys == mapping.Keys + ToSet(stack)
    decreases stack
  {
    hide Proper, Placed, Place, Symmetric, SlotsApart, Tolerant, t.Valid;
    if stack != [] {
      PlaceProper(t, adj, resident, mapping, stack[0]);
      var m := mapping[stack[0] := Place(t, adj, mapping, stack[0])];
      SelectProper(t, adj, resident, m, stack[1..]);
      assert m.Keys == mapping.Keys + {stack[0]};
      assert stack == [stack[0]] + stack[1..];
    }
  }

  /** What is spilled had to be: it has too many neighbours, or they have all the
      registers. */
  ghost predicate SpilledJustly(t: Target, adj: Adjacency, resident: map<Reg, Slot>, mapping: Mapping) {
    forall n | n in adj && n in mapping && n !in resident ::
      mapping[n].OnStack? <==> |adj[n]| > 128 || forall r | r in t.Regs(n) :: Taken(adj[n], mapping, r)
  }

  /** Why a node was placed as it was. */
  ghost predicate Forced(t: Target, adj: Adjacency, mapping: Mapping, n: Reg) {
    n in adj && n in mapping &&
    if mapping[n].OnStack? then |adj[n]| > 128 || forall r | r in t.Regs(n) :: Taken(adj[n], mapping, r)
    else |adj[n]| <= 128
  }

  lemma ForcedStays(t: Target, adj: Adjacency, mapping: Mapping, more: Mapping, n: Reg)
    requires Forced(t, adj, mapping, n) && forall a | a in mapping :: a in more && more[a] == mapping[a]
    ensures Forced(t, adj, more, n)
  {
    forall r | Taken(adj[n], mapping, r)
      ensures Taken(adj[n], more, r)
    {
      var b :| b in adj[n] && if IsPhysical(b) then b == r else b in mapping && mapping[b] == InReg(r);
      assert IsPhysical(b) || more[b] == InReg(r);
    }
  }

  /** Later places do not change earlier ones, nor why they were given. */
  lemma {:induction false} SelectForced(t: Target, adj: Adjacency, mapping: Mapping, stack: seq<Reg>)
    requires t.Valid() && Tolerant(t) && Symmetric(adj)
    requires forall n | n in stack :: n in adj && n !in mapping
    requires forall i, j | 0 <= i < j < |stack| :: stack[i] != stack[j]
    ensures var m := Select(t, adj, mapping, stack);
            && (forall a | a in mapping :: a in m && m[a] == mapping[a])
            && forall n | n in stack :: Forced(t, adj, m, n)
    decreases stack
  {
    hide Place, Symmetric, Tolerant, t.Valid, Forced;
    if stack != [] {
      var n := stack[0];
      assert stack == [n] + stack[1..];
      var m := mapping[n := Place(t, adj, mapping, n)];
      SelectForced(t, adj, m, stack[1..]);
      PlaceForced(t, adj, mapping, n);
      ForcedStays(t, adj, m, Select(t, adj, mapping, stack), n);
    }
  }

  lemma PlaceForced(t: Target, adj: Adjacency, mapping: Mapping, n: Reg)
    requires t.Valid() && Tolerant(t) && Symmetric(adj) && n in adj && n !in mapping
    ensures Forced(t, adj, mapping[n := Place(t, adj, mapping, n)], n)
  {
    PlaceFits(t, adj, mapping, n);
    SelfFree(adj, n);
    hide Place, Tolerant, Symmetric, t.Valid;
    var m := mapping[n := Place(t, adj, mapping, n)];
    forall r | Taken(adj[n], mapping, r)
      ensures Taken(adj[n], m, r)
    {
      var b :| b in adj[n] && if IsPhysical(b) then b == r else b in mapping && mapping[b] == InReg(r);
      assert IsPhysical(b) || m[b] == InReg(r);
    }
  }

  lemma ForcedJustly(t: Target, adj: Adjacency, resident: map<Reg, Slot>, mapping: Mapping)
    requires Proper(adj, mapping) && Placed(t, resident, mapping)
    requires forall n | n in adj && n in mapping && n !in resident :: Forced(t, adj, mapping, n)
    ensures SpilledJustly(t, adj, resident, mapping)
  {
    forall n | n in adj && n in mapping && n !in resident
      ensures mapping[n].OnStack? <==> |adj[n]| > 128 || forall r | r in t.Regs(n) :: Taken(adj[n], mapping, r)
    {
      assert Forced(t, adj, mapping, n);
      assert mapping[n].InReg? ==> !Taken(adj[n], mapping, mapping[n].r);
    }
  }

  // ---- nodes that are never spilled ----------------------------------------

  /** A node's neighbours among the physical registers and some other nodes. */
  function Within(nbrs: set<Reg>, nodes: set<Reg>): set<Reg> {
    set n | n in nbrs && (IsPhysical(n) || n in nodes)
  }

  /** The node was removed when fewer neighbours than registers were left; `nodes`
      are the nodes left then. */
  ghost predicate LowDegree(t: Target, adj: Adjacency, node: Reg, nodes: set<Reg>) {
    node in adj && |Within(adj[node], nodes)| < |t.Regs(node)|
  }

  /** The register a neighbour takes away, or itself. */
  function ColorOf(mapping: Mapping, n: Reg): Reg {
    if !IsPhysical(n) && n in mapping && mapping[n].InReg? then mapping[n].r else n
  }

  lemma ImageStep(nbrs: set<Reg>, mapping: Mapping, n: Reg)
    requires n in nbrs
    ensures NeighborColors(mapping, nbrs) <= NeighborColors(mapping, nbrs - {n}) + {ColorOf(mapping, n)}
  {
    var rest := nbrs - {n};
    forall c | c in NeighborColors(mapping, nbrs)
      ensures c in NeighborColors(mapping, rest) || c == ColorOf(mapping, n)
    {
      hide IsPhysical;
      if c in nbrs && IsPhysical(c) {
        assert c == n || c in rest;
      } else {
        var k :| k in nbrs && !IsPhysical(k) && k in mapping && mapping[k].InReg? && mapping[k].r == c;
        assert k == n || k in rest;
      }
    }
  }

  lemma ImageSize(nbrs: set<Reg>, mapping: Mapping)
    ensures |NeighborColors(mapping, nbrs)| <= |nbrs|
    decreases nbrs
  {
    if nbrs == {} {
      assert NeighborColors(mapping, nbrs) == {};
    } else {
      var n :| n in nbrs;
      ImageSize(nbrs - {n}, mapping);
      ImageStep(nbrs, mapping, n);
      hide NeighborColors;
      SubsetCount(NeighborColors(mapping, nbrs), NeighborColors(mapping, nbrs - {n}) + {ColorOf(mapping, n)});
    }
  }

  lemma DistinctSize(regs: seq<Reg>)
    requires forall i, j | 0 <= i < j < |regs| :: regs[i] != regs[j]
    ensures |ToSet(regs)| == |regs|
  {
    if regs != [] {
      var rest := regs[1..];
      DistinctSize(rest);
      assert regs == [regs[0]] + rest;
      assert ToSet(regs) == {regs[0]} + ToSet(rest);
      assert regs[0] !in rest;
    }
  }

  lemma NearColors(nbrs: set<Reg>, mapping: Mapping, nodes: set<Reg>)
    requires forall n | n in mapping && mapping[n].InReg? :: n in nodes
    ensures NeighborColors(mapping, nbrs) == NeighborColors(mapping, Within(nbrs, nodes))
  {
    hide IsPhysical;
  }

  /** A low-degree node finds a register as long as only nodes left at its removal
      have been given registers before it. */
  lemma LowDegreeChosen(t: Target, adj: Adjacency, mapping: Mapping, node: Reg, nodes: set<Reg>)
    requires t.Valid() && LowDegree(t, adj, node, nodes) && |adj[node]| <= 128
    requires forall n | n in mapping && mapping[n].InReg? :: n in nodes
    ensures Place(t, adj, mapping, node).InReg?
  {
    var near := Within(adj[node], nodes);
    var taken := NeighborColors(mapping, adj[node]);
    NearColors(adj[node], mapping, nodes);
    hide NeighborColors, Within;
    ImageSize(near, mapping);
    DistinctSize(t.Regs(node));
    if ToSet(t.Regs(node)) <= taken {
      SubsetCount(ToSet(t.Regs(node)), taken);
    }
    var r :| r in ToSet(t.Regs(node)) && r !in taken;
    assert r in Available(t.Regs(node), taken);
  }

  /** Each low-degree node on the stack lies behind nodes that were left when it
      was removed. */
  ghost predicate Ranked(t: Target, adj: Adjacency, stack: seq<Reg>, low: map<Reg, set<Reg>>) {
    && (forall n | n in low :: LowDegree(t, adj, n, low[n]))
    && (forall j, k | 0 <= j < k < |stack| && stack[k] in low :: stack[j] in low[stack[k]])
  }

  /** What was of low degree when removed, and not too crowded, gets a register. */
  lemma {:induction false} SelectNoSpill(t: Target, adj: Adjacency, mapping: Mapping, stack: seq<Reg>,
                                         low: map<Reg, set<Reg>>)
    requires t.Valid() && Ranked(t, adj, stack, low)
    requires forall n | n in stack :: n in adj && n !in mapping
    requires forall i, j | 0 <= i < j < |stack| :: stack[i] != stack[j]
    requires forall n, k | n in mapping && mapping[n].InReg? && 0 <= k < |stack| && stack[k] in low ::
               n in low[stack[k]]
    ensures var m := Select(t, adj, mapping, stack);
            && (forall n | n in mapping :: n in m && m[n] == mapping[n])
            && (forall n | n in stack && n in low && |adj[n]| <= 128 :: n in m && m[n].InReg?)
    decreases stack
  {
    hide Place, LowDegree;
    if stack != [] {
      var node := stack[0];
      if node in low && |adj[node]| <= 128 {
        LowDegreeChosen(t, adj, mapping, node, low[node]);
      }
      var m := mapping[node := Place(t, adj, mapping, node)];
      assert forall k | 0 <= k < |stack[1..]| :: stack[1..][k] == stack[k + 1];
      assert forall n | n in stack[1..] :: n in stack;
      SelectNoSpill(t, adj, m, stack[1..], low);
      assert forall n | n in stack :: n == node || n in stack[1..];
      assert node in m;
    }
  }

  // ---- removal, and the whole colouring ------------------------------------

  ghost predicate AllDistinct(s: seq<Reg>) {
    forall i, j | 0 <= i < j < |s| :: s[i] != s[j]
  }

  /** What is left of a graph after nodes have been deleted. */
  ghost predicate Remains(full: Adjacency, adj: Adjacency) {
    adj.Keys <= full.Keys && forall n | n in adj :: adj[n] == Within(full[n], adj.Keys)
  }

  lemma DeletedRemains(full: Adjacency, was: Adjacency, adj: Adjacency, n: Reg)
    requires Remains(full, was) && Symmetric(was) && n in was && adj.Keys == was.Keys - {n}
    requires forall x, y {:trigger y in adj[x]} {:trigger y in was[x]} | x in adj ::
      y in adj[x] <==> y in was[x] && y != n
    ensures Remains(full, adj)
  {
    hide CanInterfere;
    assert !IsPhysical(n);
    forall x | x in adj
      ensures adj[x] == Within(full[x], adj.Keys)
    {
      assert was[x] == Within(full[x], was.Keys);
    }
  }

  method DeleteAll(g: Graph, list: seq<Reg>, ghost full: Adjacency)
    requires g.Valid() && Remains(full, g.adj) && AllDistinct(list) && ToSet(list) <= g.adj.Keys
    modifies g
    ensures g.Valid() && Remains(full, g.adj) && g.adj.Keys == old(g.adj).Keys - ToSet(list)
  {
    hide Remains, g.Valid;
    for k := 0 to |list|
      invariant g.Valid() && Remains(full, g.adj) && g.adj.Keys == old(g.adj).Keys - ToSet(list[..k])
    {
      TakeOne(list, k);
      DeleteOne(g, list[k], full);
    }
    assert list[..|list|] == list;
  }

  lemma TakeOne(list: seq<Reg>, k: nat)
    requires AllDistinct(list) && k < |list|
    ensures ToSet(list[..k + 1]) == ToSet(list[..k]) + {list[k]}
    ensures list[k] in ToSet(list) && list[k] !in ToSet(list[..k])
  {
    assert list[..k + 1] == list[..k] + [list[k]];
  }

  method DeleteOne(g: Graph, n: Reg, ghost full: Adjacency)
    requires g.Valid() && Remains(full, g.adj) && n in g.adj
    modifies g
    ensures g.Valid() && Remains(full, g.adj) && g.adj.Keys == old(g.adj).Keys - {n}
  {
    hide Remains, Symmetric;
    ghost var was := g.adj;
    g.DeleteNode(n);
    DeletedRemains(full, was, g.adj, n);
  }

  /** The nodes that can go now, and those so crowded that they go anyway. */
  method Sort(t: Target, g: Graph, nodes: seq<Reg>) returns (good: seq<Reg>, bad: seq<Reg>)
    requires g.Valid() && AllDistinct(nodes) && ToSet(nodes) == g.adj.Keys
    ensures AllDistinct(good + bad) && ToSet(good + bad) <= g.adj.Keys
    ensures forall n :: n in good <==> n in g.adj && |g.adj[n]| < |t.Regs(n)|
    ensures forall n :: n in bad <==> n in g.adj && |g.adj[n]| > 4 * |t.Regs(n)|
  {
    good, bad := [], [];
    for k := 0 to |nodes|
      invariant forall n :: n in good <==> n in nodes[..k] && |g.adj[n]| < |t.Regs(n)|
      invariant forall n :: n in bad <==> n in nodes[..k] && |g.adj[n]| > 4 * |t.Regs(n)|
      invariant AllDistinct(good) && AllDistinct(bad)
    {
      var node := nodes[k];
      assert nodes[..k + 1] == nodes[..k] + [node];
      assert node !in nodes[..k];
      assert node in ToSet(nodes);
      var count := g.Degree(node);
      if count < |t.Regs(node)| {
        Prepend(node, good);
        good := [node] + good;
      }
      if count > 4 * |t.Regs(node)| {
        Prepend(node, bad);
        bad := [node] + bad;
      }
    }
    assert nodes[..|nodes|] == nodes;
    assert forall n :: n in nodes <==> n in ToSet(nodes);
    Concat(good, bad);
  }

  lemma Prepend(node: Reg, s: seq<Reg>)
    requires AllDistinct(s) && node !in s
    ensures AllDistinct([node] + s)
  {}

  lemma Concat(a: seq<Reg>, b: seq<Reg>)
    requires AllDistinct(a) && AllDistinct(b) && forall n | n in a :: n !in b
    ensures AllDistinct(a + b)
  {
    forall i, j | 0 <= i < j < |a + b|
      ensures (a + b)[i] != (a + b)[j]
    {
      if i < |a| <= j {
        assert a[i] in a && b[j - |a|] in b;
      }
    }
  }

  // ---- rounds of removal ---------------------------------------------------

  /** One round: the nodes left before it, and those it puts on the stack. */
  datatype Removed = Removed(left: set<Reg>, front: seq<Reg>)

  /** Of all nodes, `n` has fewer neighbours among those left than there are registers. */
  predicate GoodAt(t: Target, full: Adjacency, left: set<Reg>, n: Reg) {
    n in left && n in full && |Within(full[n], left)| < |t.Regs(n)|
  }

  predicate BadAt(t: Target, full: Adjacency, left: set<Reg>, n: Reg) {
    n in left && n in full && |Within(full[n], left)| > 4 * |t.Regs(n)|
  }

  /** The low-degree nodes lie below the others. */
  ghost predicate GoodBelow(t: Target, full: Adjacency, r: Removed) {
    forall j, k | 0 <= j < k < |r.front| && GoodAt(t, full, r.left, r.front[j]) :: GoodAt(t, full, r.left, r.front[k])
  }

  /** The round removes just the low-degree nodes and the crowded ones, which go on top of
      them, or when there are none of either any one node. */
  ghost predicate RoundIs(t: Target, full: Adjacency, r: Removed) {
    && AllDistinct(r.front) && ToSet(r.front) <= r.left <= full.Keys
    && (forall n | GoodAt(t, full, r.left, n) || BadAt(t, full, r.left, n) :: n in r.front)
    && ((exists n :: n in r.front && !GoodAt(t, full, r.left, n) && !BadAt(t, full, r.left, n)) ==>
          |r.front| == 1 && forall n :: !GoodAt(t, full, r.left, n) && !BadAt(t, full, r.left, n))
    && GoodBelow(t, full, r)
  }

  /** Rounds from `start` that leave the nodes `left`. */
  ghost predicate Rounds(t: Target, full: Adjacency, start: set<Reg>, rounds: seq<Removed>, left: set<Reg>)
    decreases rounds
  {
    if rounds == [] then left == start
    else
      var r := rounds[|rounds| - 1];
      RoundIs(t, full, r) && left == r.left - ToSet(r.front) && Rounds(t, full, start, rounds[..|rounds| - 1], r.left)
  }

  /** The stack: what was removed last is on top. */
  function StackOf(rounds: seq<Removed>): seq<Reg>
    decreases rounds
  {
    if rounds == [] then [] else rounds[|rounds| - 1].front + StackOf(rounds[..|rounds| - 1])
  }

  /** The nodes of low degree among those left. */
  function GoodNodes(t: Target, full: Adjacency, left: set<Reg>): set<Reg> {
    set n | n in left && GoodAt(t, full, left, n)
  }

  /** The nodes removed as low-degree, and what was left when each of them went. */
  function Lows(t: Target, full: Adjacency, rounds: seq<Removed>): map<Reg, set<Reg>>
    decreases rounds
  {
    if rounds == [] then map[]
    else
      var left := rounds[|rounds| - 1].left;
      Lows(t, full, rounds[..|rounds| - 1]) + map n | n in GoodNodes(t, full, left) :: left
  }

  /** Some round removed the node as low-degree. */
  ghost predicate RemovedLow(t: Target, full: Adjacency, rounds: seq<Removed>, n: Reg) {
    exists k :: 0 <= k < |rounds| && n in rounds[k].front && GoodAt(t, full, rounds[k].left, n)
  }

  /** What the rounds so far have made of the stack. */
  ghost predicate Removing(t: Target, full: Adjacency, start: set<Reg>, rounds: seq<Removed>, left: set<Reg>) {
    && AllDistinct(StackOf(rounds)) && ToSet(StackOf(rounds)) == start - left && left <= start
    && Lows(t, full, rounds).Keys <= ToSet(StackOf(rounds))
    && Ranked(t, full, StackOf(rounds), Lows(t, full, rounds))
    && (forall n | n in Lows(t, full, rounds) :: left <= Lows(t, full, rounds)[n])
  }

  lemma {:induction false} RoundsRemove(t: Target, full: Adjacency, start: set<Reg>, rounds: seq<Removed>,
                                        left: set<Reg>)
    requires Rounds(t, full, start, rounds, left)
    ensures Removing(t, full, start, rounds, left)
    decreases rounds
  {
    hide AllDistinct, Ranked, RoundIs, GoodNodes;
    if rounds == [] {
      NothingRanked(t, full);
    } else {
      var r, before := rounds[|rounds| - 1], rounds[..|rounds| - 1];
      RoundsRemove(t, full, start, before, r.left);
      hide Removing;
      RoundRemoves(t, full, start, before, r, left);
      assert rounds == before + [r];
    }
  }

  lemma NothingRanked(t: Target, full: Adjacency)
    ensures AllDistinct([]) && Ranked(t, full, [], map[])
  {}

  /** One round moves nodes to the front of the stack. */
  lemma RoundRemoves(t: Target, full: Adjacency, start: set<Reg>, before: seq<Removed>, r: Removed, left: set<Reg>)
    requires Removing(t, full, start, before, r.left) && RoundIs(t, full, r) && left == r.left - ToSet(r.front)
    ensures Removing(t, full, start, before + [r], left)
  {
    assert (before + [r])[..|before|] == before && (before + [r])[|before|] == r;
    var good := GoodNodes(t, full, r.left);
    GoodRemoved(t, full, r);
    hide Ranked, AllDistinct, RoundIs, GoodNodes;
    RoundApart(start, StackOf(before), r);
    RoundRanked(t, full, r, StackOf(before), Lows(t, full, before), good);
    assert Lows(t, full, before + [r]) == Lows(t, full, before) + map n | n in good :: r.left;
  }

  lemma GoodRemoved(t: Target, full: Adjacency, r: Removed)
    requires RoundIs(t, full, r)
    ensures GoodNodes(t, full, r.left) <= ToSet(r.front) <= r.left && AllDistinct(r.front)
    ensures forall n | n in GoodNodes(t, full, r.left) :: LowDegree(t, full, n, r.left)
  {}

  lemma RoundApart(start: set<Reg>, stack: seq<Reg>, r: Removed)
    requires AllDistinct(stack) && AllDistinct(r.front) && ToSet(stack) == start - r.left
    requires ToSet(r.front) <= r.left <= start
    ensures AllDistinct(r.front + stack) && ToSet(r.front + stack) == start - (r.left - ToSet(r.front))
    ensures ToSet(r.front) !! ToSet(stack)
  {
    hide AllDistinct;
    ToSetConcat(r.front, stack);
    assert ToSet(r.front) !! ToSet(stack);
    ConcatSets(r.front, stack);
  }

  lemma ToSetConcat(a: seq<Reg>, b: seq<Reg>)
    ensures ToSet(a + b) == ToSet(a) + ToSet(b)
  {}

  lemma ConcatSets(a: seq<Reg>, b: seq<Reg>)
    requires AllDistinct(a) && AllDistinct(b) && ToSet(a) !! ToSet(b)
    ensures AllDistinct(a + b)
  {
    forall n | n in a
      ensures n !in b
    {
      assert n in ToSet(a) && n !in ToSet(b);
    }
    Concat(a, b);
  }

  lemma RoundRanked(t: Target, full: Adjacency, r: Removed, stack: seq<Reg>, low: map<Reg, set<Reg>>, good: set<Reg>)
    requires Ranked(t, full, stack, low) && low.Keys <= ToSet(stack) && forall n | n in low :: r.left <= low[n]
    requires ToSet(r.front) <= r.left && ToSet(r.front) !! ToSet(stack)
    requires good <= ToSet(r.front) && forall n | n in good :: LowDegree(t, full, n, r.left)
    ensures Ranked(t, full, r.front + stack, low + map n | n in good :: r.left)
  {
    hide LowDegree;
    var low' := low + map n | n in good :: r.left;
    var stack' := r.front + stack;
    forall j, k | 0 <= j < k < |stack'| && stack'[k] in low'
      ensures stack'[j] in low'[stack'[k]]
    {
      RankedAt(r.front, stack, j, k);
      if k < |r.front| {
        assert r.front[j] in ToSet(r.front) && r.front[k] in ToSet(r.front);
        assert r.front[k] !in ToSet(stack);
      } else {
        assert stack[k - |r.front|] in ToSet(stack);
        assert j < |r.front| ==> r.front[j] in ToSet(r.front);
      }
    }
  }

  lemma RankedAt(front: seq<Reg>, stack: seq<Reg>, j: nat, k: nat)
    requires j < k < |front| + |stack|
    ensures (front + stack)[k] == if k < |front| then front[k] else stack[k - |front|]
    ensures (front + stack)[j] == if j < |front| then front[j] else stack[j - |front|]
  {}

  /** Whether low-degree or not, a node removed as low-degree is so recorded. */
  lemma {:induction false} LowsExact(t: Target, full: Adjacency, start: set<Reg>, rounds: seq<Removed>, left: set<Reg>,
                                     n: Reg)
    requires Rounds(t, full, start, rounds, left)
    ensures n in Lows(t, full, rounds) <==> RemovedLow(t, full, rounds, n)
    decreases rounds
  {
    hide GoodAt, BadAt;
    if rounds != [] {
      var r, before := rounds[|rounds| - 1], rounds[..|rounds| - 1];
      LowsExact(t, full, start, before, r.left, n);
      GoodRemoved(t, full, r);
      assert n in GoodNodes(t, full, r.left) <==> n in r.front && GoodAt(t, full, r.left, n);
      if RemovedLow(t, full, before, n) {
        var k :| 0 <= k < |before| && n in before[k].front && GoodAt(t, full, before[k].left, n);
        assert rounds[k] == before[k];
      }
      if RemovedLow(t, full, rounds, n) {
        var k :| 0 <= k < |rounds| && n in rounds[k].front && GoodAt(t, full, rounds[k].left, n);
        assert k < |before| ==> before[k] == rounds[k];
      }
    }
  }

  /** Every node is removed in some round, being left before it. */
  lemma {:induction false} RemovedOnce(t: Target, full: Adjacency, start: set<Reg>, rounds: seq<Removed>,
                                       left: set<Reg>, n: Reg)
    returns (k: nat)
    requires Rounds(t, full, start, rounds, left) && n in start && n !in left
    ensures k < |rounds| && n in rounds[k].front && RoundIs(t, full, rounds[k])
    decreases rounds
  {
    hide RoundIs;
    var r, before := rounds[|rounds| - 1], rounds[..|rounds| - 1];
    if n in r.left {
      k := |rounds| - 1;
    } else {
      k := RemovedOnce(t, full, start, before, r.left, n);
      assert rounds[k] == before[k];
    }
  }

  lemma WithinSize(nbrs: set<Reg>, left: set<Reg>)
    ensures |Within(nbrs, left)| <= |nbrs|
  {
    SubsetCount(Within(nbrs, left), nbrs);
  }

  /** A node with fewer neighbours than registers is removed as low-degree, whenever. */
  lemma {:induction false} SmallIsLow(t: Target, full: Adjacency, start: set<Reg>, rounds: seq<Removed>, n: Reg)
    requires Rounds(t, full, start, rounds, {}) && n in start && n in full && |full[n]| < |t.Regs(n)|
    ensures RemovedLow(t, full, rounds, n)
  {
    hide Rounds;
    var k := RemovedOnce(t, full, start, rounds, {}, n);
    WithinSize(full[n], rounds[k].left);
    assert n in ToSet(rounds[k].front);
  }

  /** Whatever nodes are left, one of them has fewer neighbours among them than there
      are registers; and no node is crowded. */
  ghost predicate Sparse(t: Target, full: Adjacency, start: set<Reg>) {
    && (forall left: set<Reg> | left <= start && left != {} :: exists n :: GoodAt(t, full, left, n))
    && (forall n | n in start && n in full :: |full[n]| <= 128 && |full[n]| <= 4 * |t.Regs(n)|)
  }

  /** In a sparse graph every node is removed as low-degree. */
  lemma {:induction false} SparseIsLow(t: Target, full: Adjacency, start: set<Reg>, rounds: seq<Removed>, n: Reg)
    requires Rounds(t, full, start, rounds, {}) && Sparse(t, full, start) && n in start && start <= full.Keys
    ensures RemovedLow(t, full, rounds, n)
  {
    hide Rounds;
    var k := RemovedOnce(t, full, start, rounds, {}, n);
    var r := rounds[k];
    LeftInStart(t, full, start, rounds, {}, k);
    assert n in ToSet(r.front);
    WithinSize(full[n], r.left);
    assert !BadAt(t, full, r.left, n);
    var g :| GoodAt(t, full, r.left, g);
  }

  lemma {:induction false} LeftInStart(t: Target, full: Adjacency, start: set<Reg>, rounds: seq<Removed>,
                                       left: set<Reg>, k: nat)
    requires Rounds(t, full, start, rounds, left) && k < |rounds|
    ensures rounds[k].left <= start && left <= start
    decreases rounds
  {
    hide RoundIs;
    var r, before := rounds[|rounds| - 1], rounds[..|rounds| - 1];
    if before != [] {
      LeftInStart(t, full, start, before, r.left, if k < |before| then k else 0);
      assert k < |before| ==> rounds[k] == before[k];
    }
  }

  /** Removes all nodes: in each round the low-degree ones and the crowded ones, or
      when there are none of either an arbitrary one. */
  method Simplify(t: Target, g: Graph, ghost full: Adjacency) returns (stack: seq<Reg>, ghost rounds: seq<Removed>)
    requires g.Valid() && Remains(full, g.adj)
    modifies g
    ensures Rounds(t, full, old(g.adj).Keys, rounds, {}) && stack == StackOf(rounds)
  {
    hide Remains, Symmetric, g.Sized, RoundIs, ToSet, AllDistinct;
    ghost var start := g.adj.Keys;
    stack, rounds := [], [];
    while g.all != {}
      invariant g.Valid() && Remains(full, g.adj)
      invariant Rounds(t, full, start, rounds, g.adj.Keys) && stack == StackOf(rounds)
      decreases g.all
    {
      ghost var r := Removed(g.adj.Keys, []);
      var front := Round(t, g, full);
      r := r.(front := front);
      assert (rounds + [r])[..|rounds|] == rounds && (rounds + [r])[|rounds|] == r;
      stack, rounds := front + stack, rounds + [r];
    }
  }

  method Round(t: Target, g: Graph, ghost full: Adjacency) returns (front: seq<Reg>)
    requires g.Valid() && Remains(full, g.adj) && g.all != {}
    modifies g
    ensures g.Valid() && Remains(full, g.adj)
    ensures RoundIs(t, full, Removed(old(g.adj).Keys, front))
    ensures g.adj.Keys == old(g.adj).Keys - ToSet(front) && g.all < old(g.all)
  {
    hide Symmetric;
    var nodes := RegsToSeq(g.all);
    assert ToSet(nodes) == g.adj.Keys;
    assert nodes[0] in ToSet(nodes) by { assert nodes != [] by { assert exists n :: n in g.all; } }
    var good, bad := Sort(t, g, nodes);
    var random := if good == [] && bad == [] then [nodes[0]] else [];
    assert good + bad == [] || random == [];
    front := random + bad + good;
    Rotate(random, bad, good);
    RoundFits(t, full, g.adj, random, bad, good, nodes[0]);
    hide ToSet, AllDistinct, RoundIs, Remains;
    assert ToSet(front) <= g.adj.Keys && ToSet(front) != {} by { FrontNotEmpty(random, bad, good, nodes, g.adj.Keys); }
    DeleteAll(g, front, full);
  }

  lemma RoundFits(t: Target, full: Adjacency, adj: Adjacency, random: seq<Reg>, bad: seq<Reg>, good: seq<Reg>,
                  node: Reg)
    requires Remains(full, adj) && node in adj && AllDistinct(random + bad + good)
    requires random == if good == [] && bad == [] then [node] else []
    requires forall n :: n in good <==> n in adj && |adj[n]| < |t.Regs(n)|
    requires forall n :: n in bad <==> n in adj && |adj[n]| > 4 * |t.Regs(n)|
    ensures RoundIs(t, full, Removed(adj.Keys, random + bad + good))
  {
    hide AllDistinct, Within, GoodBelow;
    var front := random + bad + good;
    assert forall n :: GoodAt(t, full, adj.Keys, n) <==> n in good;
    assert forall n :: BadAt(t, full, adj.Keys, n) <==> n in bad;
    assert forall n :: n in front <==> n in random || n in bad || n in good;
    if good == [] && bad == [] {
      assert front == [node];
    }
    GoodEnd(t, full, adj, random, bad, good);
  }

  lemma GoodEnd(t: Target, full: Adjacency, adj: Adjacency, random: seq<Reg>, bad: seq<Reg>, good: seq<Reg>)
    requires Remains(full, adj) && (random == [] || good == [])
    requires forall n :: n in good <==> n in adj && |adj[n]| < |t.Regs(n)|
    requires forall n :: n in bad <==> n in adj && |adj[n]| > 4 * |t.Regs(n)|
    ensures GoodBelow(t, full, Removed(adj.Keys, random + bad + good))
  {
    hide Within;
    var front, low := random + bad + good, |random + bad|;
    assert forall n :: GoodAt(t, full, adj.Keys, n) <==> n in good;
    forall j | 0 <= j < low
      ensures front[j] !in good
    {
      assert front[j] == (random + bad)[j];
      assert (random + bad)[j] in random || (random + bad)[j] in bad;
    }
    forall j | low <= j < |front|
      ensures front[j] in good
    {
      assert front[j] == good[j - low];
    }
  }

  lemma FrontNotEmpty(random: seq<Reg>, bad: seq<Reg>, good: seq<Reg>, nodes: seq<Reg>, keys: set<Reg>)
    requires nodes != [] && ToSet(nodes) == keys && ToSet(good + bad) <= keys
    requires random == if good == [] && bad == [] then [nodes[0]] else []
    ensures ToSet(random + bad + good) <= keys && ToSet(random + bad + good) != {}
  {
    var front := random + bad + good;
    assert front != [] && front[0] in ToSet(front);
    assert nodes[0] in ToSet(nodes);
    forall n | n in front
      ensures n in keys
    {
      if n !in random {
        assert n in good + bad;
        assert n in ToSet(good + bad);
      }
    }
  }

  /** The lists are deleted one after the other; the order does not matter. */
  lemma Rotate(random: seq<Reg>, bad: seq<Reg>, good: seq<Reg>)
    requires AllDistinct(good + bad) && |random| <= 1 && (random == [] || good + bad == [])
    ensures AllDistinct(random + bad + good)
    ensures ToSet(random + bad + good) == ToSet(random) + ToSet(good + bad)
  {
    forall i, j | 0 <= i < j < |good|
      ensures good[i] != good[j]
    {
      assert (good + bad)[i] == good[i] && (good + bad)[j] == good[j];
    }
    forall i, j | 0 <= i < j < |bad|
      ensures bad[i] != bad[j]
    {
      assert (good + bad)[|good| + i] == bad[i] && (good + bad)[|good| + j] == bad[j];
    }
    forall n | n in bad
      ensures n !in good
    {
      var j :| 0 <= j < |bad| && bad[j] == n;
      forall i | 0 <= i < |good|
        ensures good[i] != n
      {
        assert (good + bad)[i] == good[i] && (good + bad)[|good| + j] == bad[j];
      }
    }
    Concat(bad, good);
    assert random + bad + good == random + (bad + good);
  }

  /** What a colouring of a graph is. Registers that must live on the stack keep their
      slots and leave the graph first; the rounds remove the rest, and the stack they
      make is coloured from the top. Every node is placed; neighbours never share; what
      is spilled has more than 128 neighbours, or they have all the registers; and a node
      removed as low-degree in any round, with at most 128 neighbours, is not spilled.
      That covers nodes with fewer neighbours than there are registers, and every node
      of a sparse graph. */
  ghost predicate Coloring(t: Target, adj: Adjacency, resident: map<Reg, Slot>, rounds: seq<Removed>,
                           mapping: Mapping) {
    && mapping.Keys == adj.Keys && Proper(adj, mapping) && Placed(t, resident, mapping)
    && SpilledJustly(t, adj, resident, mapping)
    && Rounds(t, adj, adj.Keys - resident.Keys, rounds, {})
    && (forall n | n in StackOf(rounds) :: n in adj)
    && mapping == Select(t, adj, Residents(resident), StackOf(rounds))
    && (forall n | n in mapping && RemovedLow(t, adj, rounds, n) && |adj[n]| <= 128 :: mapping[n].InReg?)
    && (forall n | n in adj && n !in resident && |adj[n]| < |t.Regs(n)| && |adj[n]| <= 128 :: mapping[n].InReg?)
    && (Sparse(t, adj, adj.Keys - resident.Keys) ==> forall n | n in adj && n !in resident :: mapping[n].InReg?)
  }

  /** The whole colouring. */
  method ColorGraph(t: Target, igraph: Graph, resident: map<Reg, Slot>)
    returns (mapping: Mapping, ghost rounds: seq<Removed>)
    requires t.Valid() && Tolerant(t) && igraph.Valid() && resident.Keys <= igraph.adj.Keys
    requires SlotsApart(t, igraph.adj, resident)
    ensures Coloring(t, igraph.adj, resident, rounds, mapping)
  {
    hide Remains, Symmetric, SlotsApart, Tolerant, t.Valid, Placed, Proper, AllDistinct, Rounds, RemovedLow, Sparse,
         StackOf, SpilledJustly;
    var g := WithoutResidents(igraph, resident.Keys);
    var stack;
    stack, rounds := Simplify(t, g, igraph.adj);
    var onStack := Residents(resident);
    mapping := Colored(t, igraph.adj, resident, onStack, stack, rounds);
    NotSpilled(t, igraph.adj, igraph.adj.Keys - resident.Keys, rounds, mapping);
  }

  /** A copy of the graph without the registers that live on the stack. */
  method WithoutResidents(igraph: Graph, residents: set<Reg>) returns (g: Graph)
    requires igraph.Valid() && residents <= igraph.adj.Keys
    ensures fresh(g) && g.Valid() && Remains(igraph.adj, g.adj) && g.adj.Keys == igraph.adj.Keys - residents
  {
    g := new Graph.Copy(igraph);
    RemainsAll(igraph.adj);
    var list := RegsToSeq(residents);
    assert ToSet(list) == residents;
    DistinctSeq(list);
    hide Remains, Symmetric, AllDistinct;
    DeleteAll(g, list, igraph.adj);
  }

  lemma DistinctSeq(s: seq<Reg>)
    requires forall i, j | 0 <= i < j < |s| :: s[i] != s[j]
    ensures AllDistinct(s)
  {}

  method Colored(t: Target, adj: Adjacency, resident: map<Reg, Slot>, onStack: Mapping, stack: seq<Reg>,
                 ghost rounds: seq<Removed>) returns (mapping: Mapping)
    requires t.Valid() && Tolerant(t) && Symmetric(adj) && SlotsApart(t, adj, resident) && resident.Keys <= adj.Keys
    requires onStack == Residents(resident)
    requires Rounds(t, adj, adj.Keys - resident.Keys, rounds, {}) && stack == StackOf(rounds)
    ensures (forall n | n in stack :: n in adj)
    ensures mapping == Select(t, adj, onStack, stack)
    ensures mapping.Keys == adj.Keys && Proper(adj, mapping) && Placed(t, resident, mapping)
    ensures SpilledJustly(t, adj, resident, mapping)
    ensures forall n | n in mapping && RemovedLow(t, adj, rounds, n) && |adj[n]| <= 128 :: mapping[n].InReg?
  {
    hide Symmetric, SlotsApart, Tolerant, t.Valid, Ranked, Proper, Placed, Rounds, RemovedLow, StackOf, Lows, Select,
         SpilledJustly, Forced;
    StackReady(t, adj, adj.Keys - resident.Keys, rounds);
    assert forall n | n in stack :: n in ToSet(stack);
    ResidentsProper(t, adj, resident, onStack);
    SelectProper(t, adj, resident, onStack, stack);
    SelectNoSpill(t, adj, onStack, stack, Lows(t, adj, rounds));
    SelectForced(t, adj, onStack, stack);
    mapping := Select(t, adj, onStack, stack);
    forall n | n in mapping && RemovedLow(t, adj, rounds, n) && |adj[n]| <= 128
      ensures mapping[n].InReg?
    {
      LowsExact(t, adj, adj.Keys - resident.Keys, rounds, {}, n);
      assert n in ToSet(stack);
    }
    assert forall n | n in adj && n !in resident :: n in ToSet(stack);
    ForcedJustly(t, adj, resident, mapping);
  }

  lemma {:induction false} StackReady(t: Target, full: Adjacency, start: set<Reg>, rounds: seq<Removed>)
    requires Rounds(t, full, start, rounds, {})
    ensures var stack := StackOf(rounds);
            && AllDistinct(stack) && ToSet(stack) == start && Lows(t, full, rounds).Keys <= start
            && Ranked(t, full, stack, Lows(t, full, rounds))
  {
    RoundsRemove(t, full, start, rounds, {});
    hide Rounds, AllDistinct, Ranked;
  }

  lemma {:induction false} NotSpilled(t: Target, adj: Adjacency, start: set<Reg>, rounds: seq<Removed>,
                                      mapping: Mapping)
    requires Rounds(t, adj, start, rounds, {}) && start <= adj.Keys == mapping.Keys
    requires forall n | n in mapping && RemovedLow(t, adj, rounds, n) && |adj[n]| <= 128 :: mapping[n].InReg?
    ensures forall n | n in start && |adj[n]| < |t.Regs(n)| && |adj[n]| <= 128 :: mapping[n].InReg?
    ensures Sparse(t, adj, start) ==> forall n | n in start :: mapping[n].InReg?
  {
    hide Rounds, RemovedLow;
    forall n | n in start && |adj[n]| < |t.Regs(n)| && |adj[n]| <= 128
      ensures mapping[n].InReg?
    {
      SmallIsLow(t, adj, start, rounds, n);
    }
    if Sparse(t, adj, start) {
      forall n | n in start
        ensures mapping[n].InReg?
      {
        SparseIsLow(t, adj, start, rounds, n);
      }
    }
  }

  lemma RemainsAll(adj: Adjacency)
    requires Symmetric(adj)
    ensures Remains(adj, adj)
  {}

  lemma ResidentsProper(t: Target, adj: Adjacency, resident: map<Reg, Slot>, onStack: Mapping)
    requires SlotsApart(t, adj, resident) && onStack == Residents(resident)
    ensures Proper(adj, onStack) && Placed(t, resident, onStack)
  {}
}

/** The order in which a collection reaches objects, as a function of the heap it finds:
    from the roots, the fields of gray objects one object at a time. */
module Traversal {
  import opened HeapGraph

  /** The objects reached, and the object a word points at if it is a new one. */
  function Grow(range: Range, order: seq<nat>, v: nat): seq<nat> {
    if range.Contains(v) && v / 4 !in order then order + [v / 4] else order
  }

  /** The objects reached from the first `n` fields, in order. */
  function GrowFields(m: Memory, range: Range, order: seq<nat>, a: nat, n: nat): seq<nat> {
    if n == 0 then order
    else
      var before := GrowFields(m, range, order, a, n - 1);
      if Traced(m, a, n - 1) then Grow(range, before, Field(m, a, n - 1)) else before
  }

  /** The objects reached from locations, the last of them first. */
  function GrowLocs(m: Memory, range: Range, order: seq<nat>, locs: seq<nat>): seq<nat>
    decreases locs
  {
    if locs == [] then order
    else GrowLocs(m, range, Grow(range, order, Word(m, locs[|locs| - 1])), locs[..|locs| - 1])
  }

  /** The objects reached and those of them not scanned, after scanning `k`: each time the
      last one reached, or the first. */
  function Traverse(m: Memory, range: Range, lifo: bool, start: seq<nat>, k: nat): (r: (seq<nat>, seq<nat>)) {
    if k == 0 then (start, start)
    else
      var (order, gray) := Traverse(m, range, lifo, start, k - 1);
      if gray == [] then (order, gray)
      else
        var a, rest := if lifo then gray[|gray| - 1] else gray[0], if lifo then gray[..|gray| - 1] else gray[1..];
        var now := GrowFields(m, range, order, a, Length(m, a));
        (now, rest + now[Min(|order|, |now|)..])
  }

  /** The order of a whole collection that reaches `n` objects: from the roots, then from
      the globals, then by scanning. */
  function CopyOrder(m: Memory, range: Range, lifo: bool, roots: seq<nat>, globals: seq<nat>, n: nat): seq<nat> {
    Traverse(m, range, lifo, GrowLocs(m, range, GrowLocs(m, range, [], roots), globals), n).0
  }

  /** The objects reached from the fields of others, the last of them first. */
  function GrowObjs(m: Memory, range: Range, order: seq<nat>, objs: seq<nat>): seq<nat>
    decreases objs
  {
    if objs == [] then order
    else
      var a := objs[|objs| - 1];
      GrowObjs(m, range, GrowFields(m, range, order, a, Length(m, a)), objs[..|objs| - 1])
  }

  /** The order of a minor collection that reaches `n` objects: from the roots, the back
      objects and the globals, then by scanning. */
  function YoungOrder(m: Memory, range: Range, roots: seq<nat>, back: seq<nat>, globals: seq<nat>, n: nat): seq<nat> {
    var start := GrowLocs(m, range, GrowObjs(m, range, GrowLocs(m, range, [], roots), back), globals);
    Traverse(m, range, false, start, n).0
  }

  function Min(a: nat, b: nat): nat { if a <= b then a else b }

  lemma {:induction false} GrowFieldsKeeps(m: Memory, range: Range, order: seq<nat>, a: nat, n: nat)
    ensures order <= GrowFields(m, range, order, a, n)
  {
    if n > 0 {
      GrowFieldsKeeps(m, range, order, a, n - 1);
    }
  }

  lemma {:induction false} NothingGrows(m: Memory, range: Range, order: seq<nat>, a: nat, n: nat)
    requires forall j | 0 <= j < n :: !Traced(m, a, j)
    ensures GrowFields(m, range, order, a, n) == order
  {
    if n > 0 {
      NothingGrows(m, range, order, a, n - 1);
    }
  }

  /** Scanning one more object. */
  lemma TraverseNext(m: Memory, range: Range, lifo: bool, start: seq<nat>, k: nat, order: seq<nat>, gray: seq<nat>,
                     a: nat, rest: seq<nat>, now: seq<nat>)
    requires (order, gray) == Traverse(m, range, lifo, start, k)
    requires gray == (if lifo then rest + [a] else [a] + rest) && now == GrowFields(m, range, order, a, Length(m, a))
    ensures |order| <= |now| && (now, rest + now[|order|..]) == Traverse(m, range, lifo, start, k + 1)
  {
    GrowFieldsKeeps(m, range, order, a, Length(m, a));
    hide GrowFields, Length;
    assert rest == if lifo then gray[..|gray| - 1] else gray[1..];
  }

  lemma {:induction false} TraverseStart(m: Memory, range: Range, lifo: bool, start: seq<nat>)
    ensures Traverse(m, range, lifo, start, 0) == (start, start)
  {}

  lemma {:induction false} GrowNone(m: Memory, range: Range, order: seq<nat>, a: nat)
    ensures GrowFields(m, range, order, a, 0) == order
  {}

  lemma GrowNext(m: Memory, range: Range, order: seq<nat>, a: nat, i: nat)
    ensures GrowFields(m, range, order, a, i + 1)
         == var before := GrowFields(m, range, order, a, i);
            if Traced(m, a, i) then Grow(range, before, Field(m, a, i)) else before
  {}

  lemma {:induction false} GrowLocsSnoc(m: Memory, range: Range, order: seq<nat>, locs: seq<nat>, l: nat)
    ensures GrowLocs(m, range, order, locs + [l]) == GrowLocs(m, range, Grow(range, order, Word(m, l)), locs)
    ensures GrowLocs(m, range, order, []) == order
  {
    assert (locs + [l])[..|locs|] == locs;
  }
}

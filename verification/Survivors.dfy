/** A heap of two spaces, and what remains of it when the younger space has been
    evacuated into the older. */
module Survivors {
  import opened Tags
  import opened HeapGraph
  import opened Copying

  /** The objects of the nursery and of the tenured space, and the locations
      outside both from which the mutator reaches them. */
  datatype World = World(
    nursery: Range,
    newUsed: nat,
    young: set<nat>,
    tenured: Range,
    oldUsed: nat,
    elders: set<nat>,
    roots: set<nat>)

  /** The word, if it points into either space, points at one of the objects. */
  predicate Settled(v: nat, w: World, s: set<nat>) {
    PointsInto(v, w.nursery, s) && PointsInto(v, w.tenured, s)
  }

  /** Both spaces are well formed, and pointers between them are sound. */
  ghost predicate Whole(m: Memory, w: World) {
    && WellFormed(m, w.nursery, w.newUsed, w.young, w.roots)
    && WellFormed(m, w.tenured, w.oldUsed, w.elders, w.roots)
    && (forall a | a in w.young :: FieldsPointInto(m, a, w.tenured, w.elders))
    && (forall a | a in w.elders :: FieldsPointInto(m, a, w.nursery, w.young))
    && (w.nursery.high < w.tenured.low || w.tenured.high < w.nursery.low)
    && (forall l | l in w.roots ::
          !(w.nursery.low <= l < w.nursery.high) && !(w.tenured.low <= l < w.tenured.high))
  }

  /** Closed under pointers into either space. */
  ghost predicate ClosedIn(m: Memory, w: World, s: set<nat>) {
    Closed(m, w.nursery, w.roots, s) && Closed(m, w.tenured, w.roots, s)
  }

  /** The objects the mutator can reach. */
  ghost predicate IsReachable(m: Memory, w: World, live: set<nat>) {
    ClosedIn(m, w, live) && forall s | ClosedIn(m, w, s) :: live <= s
  }

  predicate IsFieldOf(m: Memory, objects: set<nat>, l: nat) {
    exists a | a in objects :: a <= l && Traced(m, a, l - a)
  }

  /** Every location outside the nursery that points into it is known. */
  ghost predicate Remembered(m: Memory, w: World, locs: set<nat>) {
    && (forall l | l in w.roots && w.nursery.Contains(Word(m, l)) :: l in locs)
    && (forall a, j: nat | a in w.elders && Traced(m, a, j) && w.nursery.Contains(Field(m, a, j)) :: a + j in locs)
  }

  /** A collection of the nursery into the free end of the tenured space, from
      root locations that are the mutator's or traced fields. */
  ghost predicate Evacuates(w: World, p: Progress) {
    && Whole(p.m0, w)
    && p.range == w.nursery && p.used == w.newUsed && p.objects == w.young
    && p.to == w.oldUsed && w.oldUsed <= p.top <= w.tenured.high
    && (forall l | l in p.locs :: l in w.roots || IsFieldOf(p.m0, w.young, l) || IsFieldOf(p.m0, w.elders, l))
  }

  /** A minor collection is a collection in the sense of the copying code. */
  lemma EvacuatesCollectable(w: World, p: Progress)
    requires Evacuates(w, p)
    ensures p.Collectable()
  {
    hide Length, IsPointerField, IsObject, Apart;
    forall l | l in p.locs
      ensures l < |p.m0| && PointsInto(p.m0[l], p.range, p.objects)
      ensures p.range.low <= l < p.range.high ==> p.IsField(l)
      ensures !(p.to <= l < p.top)
    {
      LocPlaced(w, p, l);
    }
  }

  lemma LocPlaced(w: World, p: Progress, l: nat)
    requires Evacuates(w, p) && l in p.locs
    ensures l < |p.m0| && PointsInto(p.m0[l], p.range, p.objects)
    ensures p.range.low <= l < p.range.high ==> p.IsField(l)
    ensures !(p.to <= l < p.top)
  {
    hide Length, IsPointerField, IsObject, Apart;
    if l in w.roots {
    } else if IsFieldOf(p.m0, w.young, l) {
      var a :| a in w.young && a <= l && Traced(p.m0, a, l - a);
      FieldPlaced(p.m0, w.nursery, w.newUsed, w.young, w.roots, a, l - a);
      assert Field(p.m0, a, l - a) == p.m0[l];
      assert FieldsPointInto(p.m0, a, w.nursery, w.young);
      var j: nat := l - a;
      assert a in p.objects && Traced(p.m0, a, j) && l == a + j;
    } else {
      var a :| a in w.elders && a <= l && Traced(p.m0, a, l - a);
      FieldPlaced(p.m0, w.tenured, w.oldUsed, w.elders, w.roots, a, l - a);
      assert Field(p.m0, a, l - a) == p.m0[l];
      assert FieldsPointInto(p.m0, a, w.nursery, w.young);
    }
  }

  lemma FieldPlaced(m: Memory, range: Range, used: nat, objects: set<nat>, locs: set<nat>, a: nat, j: nat)
    requires WellFormed(m, range, used, objects, locs) && a in objects && j < Length(m, a)
    ensures range.low < a && a + j < used <= range.high <= |m|
  {
    hide FieldsPointInto, Length;
  }

  /** Where an object is after the collection. */
  function Moved(p: Progress, a: nat): nat {
    if a in p.fwd then p.fwd[a] else a
  }

  /** The tenured space with the copied objects, and an empty nursery. */
  function After(w: World, p: Progress): World {
    w.(newUsed := w.nursery.low, young := {}, oldUsed := p.Cursor(), elders := w.elders + p.fwd.Values)
  }

  /** The collection has finished, from every location that had to be known. */
  ghost predicate Evacuated(w: World, p: Progress, m: Memory) {
    Evacuates(w, p) && Remembered(p.m0, w, p.locs) && IsIsomorphicCopy(p, m)
  }

  /** The objects that survive: the tenured ones and the copied ones. */
  function Kept(w: World, p: Progress): set<nat> { w.elders + p.fwd.Keys }

  lemma EvacuatedParts(w: World, p: Progress, m: Memory)
    requires Evacuated(w, p, m)
    ensures p.Collectable() && p.InRegion() && Whole(p.m0, w) && |m| == |p.m0|
    ensures p.range == w.nursery && p.fwd.Keys <= w.young && p.to == w.oldUsed <= p.Cursor() <= p.top <= w.tenured.high
    ensures Closed(p.m0, p.range, p.locs, p.fwd.Keys) && p.Elsewhere(m) && w.elders !! w.young
    ensures p.fwd.Keys !! w.elders && forall a | a in p.fwd :: w.oldUsed < p.fwd[a] <= p.top
    ensures forall a | a in w.elders :: w.tenured.low < a <= w.oldUsed
    ensures forall a | a in p.fwd :: w.nursery.low < a <= w.nursery.high
  {
    hide Length, FieldsPointInto, p.Contiguous, IsObject, Apart;
    EvacuatesCollectable(w, p);
  }

  /** Tenured objects keep their tags; each of their traced fields, and each word
      the mutator starts from, becomes its image. */
  lemma ElderKept(w: World, p: Progress, m: Memory, a: nat, j: nat)
    requires Evacuated(w, p, m) && a in w.elders
    ensures Tag(m, a) == Tag(p.m0, a)
    ensures j < Length(p.m0, a) ==>
              Field(m, a, j) == if Traced(p.m0, a, j) then p.Image(Field(p.m0, a, j)) else Field(p.m0, a, j)
  {
    hide Length, IsPointerField, FieldsPointInto, IsObject, p.Image, p.Placed, IsLive;
    EvacuatedParts(w, p, m);
    ElderTag(w, p, a);
    assert Tag(m, a) == Tag(p.m0, a);
    if j < Length(p.m0, a) {
      FieldPlaced(p.m0, w.tenured, w.oldUsed, w.elders, w.roots, a, j);
      if a + j in p.locs {
        ElderField(w, p, a, j);
      } else {
        assert Word(m, a + j) == Word(p.m0, a + j);
        if Traced(p.m0, a, j) {
          ImageOutside(p, Field(p.m0, a, j));
        }
      }
    }
  }

  lemma ImageOutside(p: Progress, v: nat)
    requires !p.range.Contains(v)
    ensures p.Image(v) == v
  {}

  /** A field location is inside the space, is not the word before an object, and
      is a field of one object only. */
  lemma FieldSpot(m: Memory, range: Range, used: nat, objects: set<nat>, locs: set<nat>, l: nat)
    requires WellFormed(m, range, used, objects, locs)
    ensures IsFieldOf(m, objects, l) ==>
              && range.low < l < used
              && forall a | a in objects :: l != a - 1 && (a <= l && l - a < Length(m, a) ==> Traced(m, a, l - a))
  {
    hide Length, IsPointerField, FieldsPointInto, IsObject;
    if IsFieldOf(m, objects, l) {
      var b :| b in objects && b <= l && Traced(m, b, l - b);
      FieldPlaced(m, range, used, objects, locs, b, l - b);
      forall a | a in objects
        ensures l != a - 1 && (a <= l && l - a < Length(m, a) ==> Traced(m, a, l - a))
      {
        assert b != a ==> Apart(m, b, a);
      }
    }
  }

  lemma ElderTag(w: World, p: Progress, a: nat)
    requires Evacuates(w, p) && a in w.elders
    ensures a - 1 !in p.locs && w.tenured.low <= a - 1 < w.oldUsed
  {
    hide Length, IsPointerField, FieldsPointInto, IsObject, IsFieldOf, Apart;
    assert w.tenured.low < a <= w.oldUsed <= w.tenured.high;
    FieldSpot(p.m0, w.nursery, w.newUsed, w.young, w.roots, a - 1);
    FieldSpot(p.m0, w.tenured, w.oldUsed, w.elders, w.roots, a - 1);
  }

  lemma ElderField(w: World, p: Progress, a: nat, j: nat)
    requires Evacuates(w, p) && a in w.elders && j < Length(p.m0, a) && a + j in p.locs
    ensures Traced(p.m0, a, j)
  {
    hide Length, IsPointerField, FieldsPointInto, IsObject, IsFieldOf, Apart;
    FieldPlaced(p.m0, w.tenured, w.oldUsed, w.elders, w.roots, a, j);
    FieldSpot(p.m0, w.nursery, w.newUsed, w.young, w.roots, a + j);
    FieldSpot(p.m0, w.tenured, w.oldUsed, w.elders, w.roots, a + j);
  }

  lemma RootKept(w: World, p: Progress, m: Memory, l: nat)
    requires Evacuated(w, p, m) && l in w.roots
    ensures l < |m| && Word(m, l) == p.Image(Word(p.m0, l))
    ensures Word(p.m0, l) == p.m0[l] && Settled(Word(p.m0, l), w, Kept(w, p))
  {
    hide Length, FieldsPointInto, IsObject, Apart, p.Image, p.Placed, IsLive;
    EvacuatedParts(w, p, m);
    var v := Word(p.m0, l);
    if l !in p.locs {
      ImageOutside(p, v);
    } else {
      assert PointsInto(v, p.range, p.fwd.Keys);
    }
  }

  /** Every survivor keeps its tag, and its traced fields become their images. */
  lemma KeptShape(w: World, p: Progress, m: Memory, a: nat)
    requires Evacuated(w, p, m) && a in Kept(w, p)
    ensures IsObject(p.m0, a) && Tag(m, Moved(p, a)) == Tag(p.m0, a) && IsObject(m, Moved(p, a))
    ensures Length(m, Moved(p, a)) == Length(p.m0, a)
    ensures forall j: nat :: Traced(m, Moved(p, a), j) <==> Traced(p.m0, a, j)
    ensures if a in w.elders then Moved(p, a) == a && a + Length(p.m0, a) <= w.oldUsed && w.tenured.low < a
            else a in p.fwd && w.oldUsed < p.fwd[a] && p.fwd[a] + Length(p.m0, a) <= p.Cursor()
  {
    hide DataWords, FieldsPointInto, Apart, p.Image, p.Contiguous, IsPointerField, IsObjectTag;
    EvacuatedParts(w, p, m);
    if a in w.elders {
      ElderKept(w, p, m, a, 0);
    } else {
      assert a in p.fwd && Tag(m, p.fwd[a]) == Tag(p.m0, a);
    }
  }

  lemma KeptFields(w: World, p: Progress, m: Memory, a: nat, j: nat)
    requires Evacuated(w, p, m) && a in Kept(w, p) && j < Length(p.m0, a)
    ensures Field(m, Moved(p, a), j) == if Traced(p.m0, a, j) then p.Image(Field(p.m0, a, j)) else Field(p.m0, a, j)
    ensures Traced(p.m0, a, j) ==> Settled(Field(p.m0, a, j), w, Kept(w, p))
  {
    hide Length, Traced, p.Image, Evacuated;
    if a in w.elders {
      ElderFields(w, p, m, a, j);
    } else {
      YoungFields(w, p, m, a, j);
    }
  }

  lemma ElderFields(w: World, p: Progress, m: Memory, a: nat, j: nat)
    requires Evacuated(w, p, m) && a in w.elders && j < Length(p.m0, a)
    ensures Field(m, Moved(p, a), j) == if Traced(p.m0, a, j) then p.Image(Field(p.m0, a, j)) else Field(p.m0, a, j)
    ensures Traced(p.m0, a, j) ==> Settled(Field(p.m0, a, j), w, Kept(w, p))
  {
    hide Length, IsPointerField, IsObject, Apart, p.Image, p.Placed;
    EvacuatedParts(w, p, m);
    ElderKept(w, p, m, a, j);
    if Traced(p.m0, a, j) {
      assert FieldsPointInto(p.m0, a, w.tenured, w.elders);
      assert p.range.Contains(Field(p.m0, a, j)) ==> a + j in p.locs;
    }
  }

  lemma YoungFields(w: World, p: Progress, m: Memory, a: nat, j: nat)
    requires Evacuated(w, p, m) && a in p.fwd && j < Length(p.m0, a)
    ensures Field(m, Moved(p, a), j) == if Traced(p.m0, a, j) then p.Image(Field(p.m0, a, j)) else Field(p.m0, a, j)
    ensures Traced(p.m0, a, j) ==> Settled(Field(p.m0, a, j), w, Kept(w, p))
  {
    hide Length, IsPointerField, IsObject, Apart, p.Image, p.Placed;
    EvacuatedParts(w, p, m);
    if Traced(p.m0, a, j) {
      assert FieldsPointInto(p.m0, a, w.nursery, p.fwd.Keys);
      assert FieldsPointInto(p.m0, a, w.tenured, w.elders);
    }
  }

  /** The image of a settled word points into the tenured space alone, and at the
      place its target has moved to. */
  lemma ImageSettled(w: World, p: Progress, m: Memory, v: nat, s: set<nat>, s': set<nat>)
    requires Evacuated(w, p, m) && Settled(v, w, Kept(w, p))
    requires forall a | a in Kept(w, p) :: a in s <==> Moved(p, a) in s'
    ensures !w.nursery.Contains(p.Image(v))
    ensures PointsInto(p.Image(v), w.tenured, s') <==> Settled(v, w, s)
  {
    hide Length, IsObject, FieldsPointInto, Apart, p.Contiguous, Evacuated, Whole, WellFormed, p.Collectable,
         p.Elsewhere;
    EvacuatedParts(w, p, m);
    SpacesApart(w, p);
    if w.nursery.Contains(v) {
      TargetCopied(w, p, m, v);
    } else if w.tenured.Contains(v) {
      TargetStays(w, p, m, v);
    }
  }

  lemma TargetStays(w: World, p: Progress, m: Memory, v: nat)
    requires Evacuated(w, p, m) && Settled(v, w, Kept(w, p)) && !w.nursery.Contains(v) && w.tenured.Contains(v)
    ensures v / 4 in w.elders && v / 4 !in p.fwd && v % 4 == 0 && p.Image(v) == v
  {
    hide Length, IsObject, FieldsPointInto, Apart, p.Contiguous, Evacuated, Whole, WellFormed, p.Collectable,
         p.Elsewhere;
    EvacuatedParts(w, p, m);
    assert v == 4 * (v / 4);
  }

  lemma TargetCopied(w: World, p: Progress, m: Memory, v: nat)
    requires Evacuated(w, p, m) && Settled(v, w, Kept(w, p)) && w.nursery.Contains(v)
    ensures v / 4 in p.fwd && v % 4 == 0 && p.Image(v) == 4 * p.fwd[v / 4] && !w.tenured.Contains(v)
    ensures w.tenured.low <= p.fwd[v / 4] <= w.tenured.high
  {
    hide Length, IsObject, FieldsPointInto, Apart, p.Contiguous, Evacuated, Whole, WellFormed, p.Collectable,
         p.Elsewhere;
    EvacuatedParts(w, p, m);
    SpacesApart(w, p);
    assert v == 4 * (v / 4);
  }

  lemma SpacesApart(w: World, p: Progress)
    requires Whole(p.m0, w)
    ensures forall v :: w.nursery.Contains(v) ==> !w.tenured.Contains(v)
    ensures w.tenured.low <= w.oldUsed <= w.tenured.high
    ensures forall i: nat | w.tenured.low <= i <= w.tenured.high :: w.tenured.Contains(4 * i)
  {
    hide FieldsPointInto;
  }

  /** The heap is whole again, with an empty nursery into which nothing points. */
  lemma WholeAgain(w: World, p: Progress, m: Memory)
    requires Evacuated(w, p, m)
    ensures Whole(m, After(w, p))
    ensures NonePointInto(m, After(w, p).elders, w.roots, w.nursery)
  {
    hide Length, IsObject, FieldsPointInto, Apart, p.Contiguous, Evacuated, p.Collectable, p.Elsewhere, Evacuates,
         Traced, p.Cursor;
    EvacuatedParts(w, p, m);
    var w' := After(w, p);
    forall b | b in w'.elders
      ensures IsObject(m, b) && w.tenured.low < b && b + Length(m, b) <= w'.oldUsed
      ensures FieldsPointInto(m, b, w.tenured, w'.elders) && FieldsPointInto(m, b, w.nursery, {})
    {
      ElderAgain(w, p, m, b);
    }
    forall b, c | b in w'.elders && c in w'.elders && b != c
      ensures Apart(m, b, c)
    {
      ApartAgain(w, p, m, b, c);
    }
    forall l | l in w.roots
      ensures l < |m| && PointsInto(m[l], w.tenured, w'.elders) && !w.nursery.Contains(m[l])
    {
      RootKept(w, p, m, l);
      ImageSettled(w, p, m, Word(p.m0, l), Kept(w, p), w'.elders);
      assert Word(m, l) == m[l];
    }
    forall b, j: nat | b in w'.elders && Traced(m, b, j)
      ensures !w.nursery.Contains(Field(m, b, j))
    {
      ElderAgain(w, p, m, b);
      FieldsMiss(m, b, w.nursery, j);
    }
  }

  lemma FieldsMiss(m: Memory, a: nat, range: Range, j: nat)
    requires FieldsPointInto(m, a, range, {}) && Traced(m, a, j)
    ensures !range.Contains(Field(m, a, j))
  {
    assert PointsInto(Field(m, a, j), range, {});
  }

  /** Every object afterwards is a survivor. */
  lemma WhoMoved(w: World, p: Progress, b: nat) returns (a: nat)
    requires b in After(w, p).elders && p.fwd.Keys !! w.elders
    ensures a in Kept(w, p) && Moved(p, a) == b
  {
    if b in w.elders {
      a := b;
    } else {
      a :| a in p.fwd && p.fwd[a] == b;
    }
  }

  lemma ElderAgain(w: World, p: Progress, m: Memory, b: nat)
    requires Evacuated(w, p, m) && b in After(w, p).elders
    ensures IsObject(m, b) && w.tenured.low < b && b + Length(m, b) <= p.Cursor()
    ensures FieldsPointInto(m, b, w.tenured, After(w, p).elders) && FieldsPointInto(m, b, w.nursery, {})
  {
    hide Length, IsObject, Evacuated, Traced, Evacuates, p.Cursor, p.Image, p.Collectable, p.InRegion;
    EvacuatedParts(w, p, m);
    var a := WhoMoved(w, p, b);
    KeptShape(w, p, m, a);
    SpacesApart(w, p);
    forall j: nat | Traced(m, b, j)
      ensures PointsInto(Field(m, b, j), w.tenured, After(w, p).elders) && !w.nursery.Contains(Field(m, b, j))
    {
      TracedLength(p.m0, a, j);
      KeptFields(w, p, m, a, j);
      ImageSettled(w, p, m, Field(p.m0, a, j), Kept(w, p), After(w, p).elders);
    }
  }

  lemma TracedLength(m: Memory, a: nat, j: nat)
    requires Traced(m, a, j)
    ensures j < Length(m, a)
  {}

  /** Survivors that differ lie apart afterwards: moving is one-to-one. */
  lemma KeptApart(w: World, p: Progress, m: Memory, a: nat, c: nat)
    requires Evacuated(w, p, m) && a in Kept(w, p) && c in Kept(w, p) && a != c
    ensures Apart(m, Moved(p, a), Moved(p, c))
  {
    hide Length, IsObject, Traced, FieldsPointInto, p.Image, p.Contiguous;
    EvacuatedParts(w, p, m);
    KeptShape(w, p, m, a);
    KeptShape(w, p, m, c);
    assert a in w.elders && c in w.elders ==> Apart(p.m0, a, c);
  }

  lemma ApartAgain(w: World, p: Progress, m: Memory, b: nat, c: nat)
    requires Evacuated(w, p, m) && b in After(w, p).elders && c in After(w, p).elders && b != c
    ensures Apart(m, b, c)
  {
    hide Evacuated;
    EvacuatedParts(w, p, m);
    var a := WhoMoved(w, p, b);
    var d := WhoMoved(w, p, c);
    KeptApart(w, p, m, a, d);
  }

  /** Where the members of a set of objects are afterwards. */
  function Places(p: Progress, s: set<nat>): set<nat> { set a | a in s :: Moved(p, a) }

  /** A set closed afterwards pulls back to a closed set of survivors. */
  lemma PullsBack(w: World, p: Progress, m: Memory, s: set<nat>, s': set<nat>)
    requires Evacuated(w, p, m) && s == (set a | a in Kept(w, p) && Moved(p, a) in s')
    requires ClosedIn(m, After(w, p), s')
    ensures ClosedIn(p.m0, w, s)
  {
    hide Length, IsObject, Evacuated, Traced, Evacuates, p.Image, PointsInto, Moved;
    forall l | l in w.roots
      ensures Settled(Word(p.m0, l), w, s)
    {
      RootKept(w, p, m, l);
      ImageSettled(w, p, m, Word(p.m0, l), s, s');
    }
    forall a, j: nat | a in s && Traced(p.m0, a, j)
      ensures Settled(Field(p.m0, a, j), w, s)
    {
      TracedLength(p.m0, a, j);
      KeptShape(w, p, m, a);
      KeptFields(w, p, m, a, j);
      ImageSettled(w, p, m, Field(p.m0, a, j), s, s');
      assert FieldsPointInto(m, Moved(p, a), w.tenured, s');
    }
  }

  /** A closed set of survivors is closed in the places they moved to. */
  lemma PushesForward(w: World, p: Progress, m: Memory, s: set<nat>)
    requires Evacuated(w, p, m) && s <= Kept(w, p) && ClosedIn(p.m0, w, s)
    ensures ClosedIn(m, After(w, p), Places(p, s))
  {
    hide Length, IsObject, Evacuated, Traced, Evacuates, p.Image, Moved;
    var s' := Places(p, s);
    PlacesExact(w, p, m, s);
    forall l | l in w.roots
      ensures PointsInto(Word(m, l), w.tenured, s') && !w.nursery.Contains(Word(m, l))
    {
      RootKept(w, p, m, l);
      ImageSettled(w, p, m, Word(p.m0, l), s, s');
    }
    forall b, j: nat | b in s' && Traced(m, b, j)
      ensures PointsInto(Field(m, b, j), w.tenured, s') && !w.nursery.Contains(Field(m, b, j))
    {
      var a :| a in s && Moved(p, a) == b;
      KeptShape(w, p, m, a);
      TracedLength(p.m0, a, j);
      KeptFields(w, p, m, a, j);
      assert FieldsPointInto(p.m0, a, w.nursery, s) && FieldsPointInto(p.m0, a, w.tenured, s);
      ImageSettled(w, p, m, Field(p.m0, a, j), s, s');
    }
  }

  lemma PlacesExact(w: World, p: Progress, m: Memory, s: set<nat>)
    requires Evacuated(w, p, m) && s <= Kept(w, p)
    ensures forall a | a in Kept(w, p) :: a in s <==> Moved(p, a) in Places(p, s)
  {
    hide Evacuated, Moved;
    forall a | a in Kept(w, p) && Moved(p, a) in Places(p, s)
      ensures a in s
    {
      var c :| c in s && Moved(p, c) == Moved(p, a);
      if c != a {
        KeptApart(w, p, m, a, c);
      }
    }
  }

  /** Every reachable object survives, and what is reachable afterwards is exactly
      what was, each object in its new place. */
  lemma ReachablePreserved(w: World, p: Progress, m: Memory, live: set<nat>)
    requires Evacuated(w, p, m) && IsReachable(p.m0, w, live)
    ensures live <= Kept(w, p)
    ensures IsReachable(m, After(w, p), Places(p, live))
  {
    hide Evacuated, ClosedIn, Moved;
    KeptClosed(w, p, m);
    PushesForward(w, p, m, live);
    forall s' | ClosedIn(m, After(w, p), s')
      ensures Places(p, live) <= s'
    {
      var s := set a | a in Kept(w, p) && Moved(p, a) in s';
      PullsBack(w, p, m, s, s');
      assert live <= s;
    }
  }

  lemma KeptClosed(w: World, p: Progress, m: Memory)
    requires Evacuated(w, p, m)
    ensures ClosedIn(p.m0, w, Kept(w, p))
  {
    hide Length, IsObject, Evacuated, Evacuates, p.Image, PointsInto, Moved, Kept;
    forall l | l in w.roots
      ensures Settled(Word(p.m0, l), w, Kept(w, p))
    {
      RootKept(w, p, m, l);
    }
    forall a, j: nat | a in Kept(w, p) && Traced(p.m0, a, j)
      ensures Settled(Field(p.m0, a, j), w, Kept(w, p))
    {
      KeptFields(w, p, m, a, j);
    }
  }

  /** What a minor collection does to the graph the mutator sees: reachability,
      tags, fields and roots are carried over by a one-to-one move, and the heap
      is whole with nothing pointing into the nursery. */
  ghost predicate GraphCarried(w: World, p: Progress, m: Memory, live: set<nat>) {
    && live <= Kept(w, p)
    && IsReachable(m, After(w, p), Places(p, live))
    && (forall a, b | a in Kept(w, p) && b in Kept(w, p) && a != b :: Moved(p, a) != Moved(p, b))
    && (forall a | a in Kept(w, p) :: Tag(m, Moved(p, a)) == Tag(p.m0, a))
    && (forall a, j: nat | a in Kept(w, p) && j < Length(p.m0, a) ::
          Field(m, Moved(p, a), j) == if Traced(p.m0, a, j) then p.Image(Field(p.m0, a, j)) else Field(p.m0, a, j))
    && (forall l | l in w.roots :: Word(m, l) == p.Image(Word(p.m0, l)))
    && Whole(m, After(w, p))
    && NonePointInto(m, After(w, p).elders, w.roots, w.nursery)
  }

  /** All of it together: the mutator sees the same graph afterwards. */
  lemma EvacuationCarries(w: World, p: Progress, m: Memory, live: set<nat>)
    requires Evacuated(w, p, m) && IsReachable(p.m0, w, live)
    ensures GraphCarried(w, p, m, live)
  {
    hide Evacuated, IsReachable, Moved, Length, Traced, Whole, NonePointInto, Kept, p.Image, After, Places;
    ReachablePreserved(w, p, m, live);
    WholeAgain(w, p, m);
    forall a, b | a in Kept(w, p) && b in Kept(w, p) && a != b
      ensures Moved(p, a) != Moved(p, b)
    {
      KeptApart(w, p, m, a, b);
    }
    forall a | a in Kept(w, p)
      ensures Tag(m, Moved(p, a)) == Tag(p.m0, a)
    {
      KeptShape(w, p, m, a);
    }
    forall a, j: nat | a in Kept(w, p) && j < Length(p.m0, a)
      ensures Field(m, Moved(p, a), j) == if Traced(p.m0, a, j) then p.Image(Field(p.m0, a, j)) else Field(p.m0, a, j)
    {
      KeptFields(w, p, m, a, j);
    }
    forall l | l in w.roots
      ensures Word(m, l) == p.Image(Word(p.m0, l))
    {
      RootKept(w, p, m, l);
    }
  }
}

/** What a copying collection in progress has established: which objects have
    been copied where, which replicas have been scanned how far, and which root
    locations have been forwarded. */
module Copying {
  import opened Tags
  import opened HeapGraph
  import opened Counting

  /** The memory `m0` and the objects of the space being collected, as they were
      when it began; the first word `to` and the end `top` of the region copied
      to; the objects copied so far, in order, and their replicas. */
  datatype Progress = Progress(
    m0: Memory,
    range: Range,
    used: nat,
    objects: set<nat>,
    locs: set<nat>,
    to: nat,
    top: nat,
    order: seq<nat>,
    fwd: map<nat, nat>)
  {
    function Cursor(): nat { to + Total(m0, order) }

    predicate Forwarded(v: nat) { range.Contains(v) ==> v / 4 in fwd }

    /** The word that replaces `v` after the collection. */
    function Image(v: nat): nat {
      if range.Contains(v) && v / 4 in fwd then 4 * fwd[v / 4] else v
    }

    ghost predicate Collectable() {
      && WellFormed(m0, range, used, objects, locs)
      && to <= top <= |m0|
      && (range.high <= to || top < range.low)
      && (forall l | l in locs :: (range.low <= l < range.high ==> IsField(l)) && !(to <= l < top))
    }

    /** A root location may be a field in the space collected: one that was written
        since the last collection. */
    ghost predicate IsField(l: nat) {
      exists a, j: nat {:trigger Traced(m0, a, j)} :: a in objects && Traced(m0, a, j) && l == a + j
    }

    /** What a field of an object, or of its replica before it is scanned, holds: its
        word, or if the field is a root location perhaps the image. */
    ghost predicate FieldOk(a: nat, j: nat, w: nat) {
      || w == Field(m0, a, j)
      || (a + j in locs && Traced(m0, a, j) && Forwarded(Field(m0, a, j)) && w == Image(Field(m0, a, j)))
    }

    /** Each object is copied at most once. */
    ghost predicate Ordered() {
      && Distinct(order)
      && (forall a | a in order :: a in objects)
      && fwd.Keys == (set a | a in order)
    }

    /** The word where the object copied as number `k` begins. */
    function Start(k: nat): int {
      if k < |order| && order[k] in fwd then fwd[order[k]] - 1 else Cursor()
    }

    /** Replicas follow one another from the first word up to the cursor. */
    ghost predicate Contiguous() {
      && Start(0) == to
      && (forall k: nat | k < |order| :: Start(k) + 1 + Length(m0, order[k]) == Start(k + 1))
    }

    ghost predicate InRegion() {
      && (forall a | a in fwd :: to < fwd[a] && fwd[a] + Length(m0, a) <= Cursor())
      && (forall a, b | a in fwd && b in fwd && a != b ::
            fwd[a] + Length(m0, a) < fwd[b] || fwd[b] + Length(m0, b) < fwd[a])
      && Cursor() <= top
    }

    ghost predicate Placed() {
      Ordered() && Contiguous() && InRegion()
    }

    /** Nothing is copied that is not live. */
    ghost predicate OnlyLive() {
      forall s | Closed(m0, range, locs, s) :: fwd.Keys <= s
    }

    /** The space collected keeps its words, except that the tag of a copied
        object has become the pointer to its replica, and that root locations in it
        may have been forwarded. */
    ghost predicate FromSpace(m: Memory) {
      && (forall a | a in objects :: Tag(m, a) == if a in fwd then 4 * fwd[a] else Tag(m0, a))
      && (forall a, j: nat | a in objects && j < Length(m0, a) :: FieldOk(a, j, Field(m, a, j)))
    }

    predicate Scanned(black: set<nat>, cur: nat, idx: nat, a: nat, j: nat) {
      a in black || (a == cur && j < idx)
    }

    /** A replica has its object's tag; its scanned traced fields hold images,
        its other fields what the object's may. */
    ghost predicate Replicas(m: Memory, black: set<nat>, cur: nat, idx: nat) {
      && (forall a | a in fwd :: Tag(m, fwd[a]) == Tag(m0, a))
      && (forall a, j: nat | a in fwd && j < Length(m0, a) ::
            if Scanned(black, cur, idx, a, j) && Traced(m0, a, j)
            then Forwarded(Field(m0, a, j)) && Field(m, fwd[a], j) == Image(Field(m0, a, j))
            else FieldOk(a, j, Field(m, fwd[a], j)))
    }

    ghost predicate Roots(m: Memory, done: set<nat>) {
      forall l | l in locs ::
        if l in done then Forwarded(Word(m0, l)) && Word(m, l) == Image(Word(m0, l))
        else Word(m, l) == Word(m0, l)
    }

    /** Every word outside the two spaces and the root locations is untouched. */
    ghost predicate Elsewhere(m: Memory) {
      forall i | 0 <= i < |m0| && !(range.low <= i < range.high) && !(to <= i < top) && i !in locs ::
        Word(m, i) == Word(m0, i)
    }

    ghost predicate Holds(m: Memory, black: set<nat>, cur: nat, idx: nat, done: set<nat>) {
      && |m| == |m0|
      && Collectable() && Placed() && OnlyLive()
      && black <= fwd.Keys
      && FromSpace(m) && Replicas(m, black, cur, idx) && Roots(m, done) && Elsewhere(m)
    }

    /** The same collection, possibly with more copied. */
    ghost predicate ExtendedBy(p: Progress) {
      && p == this.(order := p.order, fwd := p.fwd)
      && order <= p.order
      && fwd.Keys <= p.fwd.Keys
      && forall a | a in fwd :: p.fwd[a] == fwd[a]
    }

    /** The progress after copying `a` to the cursor. */
    function Copy(a: nat): Progress {
      this.(order := order + [a], fwd := fwd[a := Cursor() + 1])
    }
  }

  lemma {:induction false} TotalSnoc(m: Memory, order: seq<nat>, a: nat)
    ensures Total(m, order + [a]) == Total(m, order) + 1 + Length(m, a)
  {
    assert (order + [a])[..|order|] == order;
  }

  /** There is always room for one more distinct object. */
  lemma CopyFits(p: Progress, a: nat)
    requires p.Collectable() && p.Placed()
    requires a in p.objects && a !in p.fwd
    requires p.used - p.range.low <= p.top - p.to
    ensures p.Cursor() + 1 + Length(p.m0, a) <= p.top
  {
    TotalSnoc(p.m0, p.order, a);
    TotalFits(p.m0, p.range, p.used, p.objects, p.locs, p.order + [a]);
  }

  lemma CopyPlaced(p: Progress, a: nat)
    requires p.Placed() && a in p.objects && a !in p.fwd
    requires p.Cursor() + 1 + Length(p.m0, a) <= p.top
    ensures p.Copy(a).Placed() && p.ExtendedBy(p.Copy(a))
    ensures p.Copy(a).Cursor() == p.Cursor() + 1 + Length(p.m0, a)
  {
    hide Length, p.Ordered, p.InRegion, p.Contiguous, p.ExtendedBy;
    CopyOrdered(p, a);
    CopyInRegion(p, a);
    CopyContiguous(p, a);
  }

  lemma CopyOrdered(p: Progress, a: nat)
    requires p.Ordered() && a in p.objects && a !in p.fwd
    ensures p.Copy(a).Ordered() && p.ExtendedBy(p.Copy(a))
  {
    assert p.Copy(a).fwd.Keys == p.fwd.Keys + {a};
  }

  lemma CopyInRegion(p: Progress, a: nat)
    requires p.InRegion() && a !in p.fwd
    requires p.Cursor() + 1 + Length(p.m0, a) <= p.top
    ensures p.Copy(a).InRegion()
    ensures p.Copy(a).Cursor() == p.Cursor() + 1 + Length(p.m0, a)
  {
    hide Length;
    TotalSnoc(p.m0, p.order, a);
  }

  lemma CopyContiguous(p: Progress, a: nat)
    requires p.Ordered() && p.Contiguous() && a !in p.fwd
    ensures p.Copy(a).Contiguous()
  {
    hide Length;
    var q := p.Copy(a);
    TotalSnoc(p.m0, p.order, a);
    assert q.Start(|q.order|) == q.Cursor();
    forall k: nat | k < |q.order|
      ensures q.Start(k) + 1 + Length(p.m0, q.order[k]) == q.Start(k + 1)
    {
      StartStays(p, a, k);
      if k < |p.order| {
        StartStays(p, a, k + 1);
      }
    }
    StartStays(p, a, 0);
  }

  lemma StartStays(p: Progress, a: nat, k: nat)
    requires p.Ordered() && a !in p.fwd && k <= |p.order|
    ensures p.Copy(a).Start(k) == p.Start(k) && p.Copy(a).order[k] == if k < |p.order| then p.order[k] else a
  {
    hide Length, Distinct;
    if k < |p.order| {
      assert p.order[k] in p.order;
    }
  }

  /** The memory after the tag and fields of `a` have been written at the cursor
      and the forwarding pointer over its tag. */
  ghost predicate IsCopyOf(p: Progress, m: Memory, a: nat, m': Memory) {
    var at := p.Cursor() + 1;
    && |m'| == |m|
    && Word(m', a - 1) == 4 * at
    && Tag(m', at) == Tag(m, a)
    && (forall j: nat | j < Length(p.m0, a) :: Field(m', at, j) == Field(m, a, j))
    && (forall i: int | i != a - 1 && !(at - 1 <= i < at + Length(p.m0, a)) :: Word(m', i) == Word(m, i))
  }

  /** Copying one more live object keeps everything the collection has established. */
  lemma CopyStep(p: Progress, m: Memory, a: nat, m': Memory, black: set<nat>, cur: nat, idx: nat, done: set<nat>)
    requires p.Holds(m, black, cur, idx, done)
    requires a in p.objects && a !in p.fwd && p.Cursor() + 1 + Length(p.m0, a) <= p.top
    requires forall s | Closed(p.m0, p.range, p.locs, s) :: a in s
    requires IsCopyOf(p, m, a, m')
    requires idx == 0 || cur in p.fwd
    ensures p.Copy(a).Holds(m', black, cur, idx, done) && p.ExtendedBy(p.Copy(a))
    ensures p.Copy(a).Cursor() == p.Cursor() + 1 + Length(p.m0, a)
  {
    hide Length, WellFormed, p.Ordered, p.InRegion, p.Contiguous, p.FromSpace, p.Replicas, p.Roots, p.Elsewhere;
    CopyPlaced(p, a);
    CopyFromSpace(p, m, a, m');
    WhiteKept(p, m, a);
    CopyReplicas(p, m, a, m', black, cur, idx);
    CopyOutside(p, m, a, m', done);
  }

  lemma CopyOutside(p: Progress, m: Memory, a: nat, m': Memory, done: set<nat>)
    requires p.Collectable() && p.Placed() && p.Roots(m, done) && p.Elsewhere(m)
    requires a in p.objects && a !in p.fwd && p.Cursor() + 1 + Length(p.m0, a) <= p.top
    requires IsCopyOf(p, m, a, m')
    ensures p.Copy(a).Roots(m', done) && p.Copy(a).Elsewhere(m')
  {
    hide Length, FieldsPointInto, Apart, p.Contiguous, p.Ordered;
    assert p.range.low <= a - 1 < p.range.high;
    forall l | l in p.locs
      ensures Word(m', l) == Word(m, l)
    {
      FieldIsNoTag(p, l, a);
    }
  }

  /** A root location is not the word before an object. */
  lemma FieldIsNoTag(p: Progress, l: nat, a: nat)
    requires p.Collectable() && l in p.locs && a in p.objects
    ensures l != a - 1
  {
    hide Length, FieldsPointInto;
    assert p.range.low <= a - 1 < p.range.high;
    if p.range.low <= l < p.range.high {
      assert p.IsField(l);
      var b, j: nat :| b in p.objects && Traced(p.m0, b, j) && l == b + j;
      assert b != a ==> Apart(p.m0, b, a);
    }
  }

  /** A root location that is a field is the field of one object. */
  lemma FieldIsTraced(p: Progress, l: nat, a: nat, j: nat)
    requires p.Collectable() && l in p.locs && a in p.objects && j < Length(p.m0, a) && l == a + j
    ensures Traced(p.m0, a, j)
  {
    hide Length, FieldsPointInto, IsPointerField;
    assert p.range.low <= l < p.range.high;
    assert p.IsField(l);
    var b, k: nat :| b in p.objects && Traced(p.m0, b, k) && l == b + k;
    assert b != a ==> Apart(p.m0, b, a);
  }

  lemma StillCollectable(p: Progress, q: Progress)
    requires p.Collectable() && p.ExtendedBy(q)
    ensures q.Collectable()
  {
    hide Length, FieldsPointInto, Apart, IsPointerField;
    forall l | l in q.locs && q.range.low <= l < q.range.high
      ensures q.IsField(l)
    {
      assert p.IsField(l);
      var a, j: nat :| a in p.objects && Traced(p.m0, a, j) && l == a + j;
      assert a in q.objects && Traced(q.m0, a, j);
    }
  }

  lemma FieldOkStays(p: Progress, q: Progress, a: nat, j: nat, w: nat)
    requires p.FieldOk(a, j, w) && p.ExtendedBy(q)
    ensures q.FieldOk(a, j, w)
  {
    hide Length, Traced;
  }

  lemma CopyFromSpace(p: Progress, m: Memory, a: nat, m': Memory)
    requires p.Collectable() && p.Placed() && p.FromSpace(m) && p.ExtendedBy(p.Copy(a))
    requires a in p.objects && a !in p.fwd && p.Cursor() + 1 + Length(p.m0, a) <= p.top
    requires IsCopyOf(p, m, a, m')
    ensures p.Copy(a).FromSpace(m')
  {
    hide Length, p.Contiguous, p.Ordered, FieldsPointInto, p.FieldOk, p.ExtendedBy;
    var q := p.Copy(a);
    forall b | b in p.objects
      ensures Tag(m', b) == if b in q.fwd then 4 * q.fwd[b] else Tag(p.m0, b)
    {
      assert b != a ==> Apart(p.m0, a, b);
    }
    forall b, j: nat | b in p.objects && j < Length(p.m0, b)
      ensures q.FieldOk(b, j, Field(m', b, j))
    {
      assert b != a ==> Apart(p.m0, a, b);
      assert p.FieldOk(b, j, Field(m, b, j));
      FieldOkStays(p, q, b, j, Field(m, b, j));
    }
  }

  lemma WhiteKept(p: Progress, m: Memory, a: nat)
    requires p.Collectable() && p.FromSpace(m) && a in p.objects && a !in p.fwd
    ensures Tag(m, a) == Tag(p.m0, a) && forall j: nat | j < Length(p.m0, a) :: p.FieldOk(a, j, Field(m, a, j))
    ensures a - 1 < p.to || p.top <= a - 1
  {
    hide Length, FieldsPointInto, Apart, p.FieldOk;
  }

  lemma CopyReplicas(p: Progress, m: Memory, a: nat, m': Memory, black: set<nat>, cur: nat, idx: nat)
    requires p.InRegion() && p.Replicas(m, black, cur, idx) && p.ExtendedBy(p.Copy(a))
    requires Tag(m, a) == Tag(p.m0, a) && forall j: nat | j < Length(p.m0, a) :: p.FieldOk(a, j, Field(m, a, j))
    requires black <= p.fwd.Keys && (idx == 0 || cur in p.fwd)
    requires a !in p.fwd && p.Cursor() + 1 + Length(p.m0, a) <= p.top && (a - 1 < p.to || p.top <= a - 1)
    requires IsCopyOf(p, m, a, m')
    ensures p.Copy(a).Replicas(m', black, cur, idx)
  {
    hide Length, Traced, p.Cursor, p.FieldOk, p.ExtendedBy;
    var q := p.Copy(a);
    forall b | b in q.fwd
      ensures Tag(m', q.fwd[b]) == Tag(p.m0, b)
    {
      if b != a {
        assert Tag(m, p.fwd[b]) == Tag(p.m0, b);
      }
    }
    forall b, j: nat | b in q.fwd && j < Length(p.m0, b)
      ensures if p.Scanned(black, cur, idx, b, j) && Traced(p.m0, b, j)
              then q.Forwarded(Field(p.m0, b, j)) && Field(m', q.fwd[b], j) == q.Image(Field(p.m0, b, j))
              else q.FieldOk(b, j, Field(m', q.fwd[b], j))
    {
      if b == a {
        assert p.FieldOk(a, j, Field(m, a, j));
        FieldOkStays(p, q, a, j, Field(m, a, j));
      } else {
        assert Field(m', p.fwd[b], j) == Field(m, p.fwd[b], j);
        if !(p.Scanned(black, cur, idx, b, j) && Traced(p.m0, b, j)) {
          FieldOkStays(p, q, b, j, Field(m, p.fwd[b], j));
        }
      }
    }
  }

  /** Storing the image of a traced field in the replica being scanned, or
      leaving an untraced field alone. */
  lemma FieldStep(p: Progress, m: Memory, m': Memory, black: set<nat>, cur: nat, idx: nat, done: set<nat>)
    requires p.Holds(m, black, cur, idx, done)
    requires cur in p.fwd && cur !in black && idx < Length(p.m0, cur)
    requires Traced(p.m0, cur, idx) ==> p.Forwarded(Field(p.m0, cur, idx))
    requires |m'| == |m|
    requires Field(m', p.fwd[cur], idx) ==
             if Traced(p.m0, cur, idx) then p.Image(Field(p.m0, cur, idx)) else Field(m, p.fwd[cur], idx)
    requires forall i: int | i != p.fwd[cur] + idx :: Word(m', i) == Word(m, i)
    ensures p.Holds(m', black, cur, idx + 1, done)
  {
    FieldFromSpace(p, m, m', cur, idx);
    FieldReplicas(p, m, m', black, cur, idx);
    FieldOutside(p, m, m', cur, idx, done);
  }

  ghost predicate OnlyFieldChanged(p: Progress, m: Memory, m': Memory, cur: nat, idx: nat) {
    && cur in p.fwd && idx < Length(p.m0, cur) && |m'| == |m|
    && forall i: int | i != p.fwd[cur] + idx :: Word(m', i) == Word(m, i)
  }

  lemma FieldFromSpace(p: Progress, m: Memory, m': Memory, cur: nat, idx: nat)
    requires p.Collectable() && p.Placed() && p.FromSpace(m) && OnlyFieldChanged(p, m, m', cur, idx)
    ensures p.FromSpace(m')
  {
    hide Length, p.Contiguous, p.Ordered, FieldsPointInto, Apart;
    forall a | a in p.objects
      ensures Tag(m', a) == Tag(m, a)
    {}
    forall a, j: nat | a in p.objects && j < Length(p.m0, a)
      ensures Field(m', a, j) == Field(m, a, j)
    {}
  }

  lemma FieldReplicas(p: Progress, m: Memory, m': Memory, black: set<nat>, cur: nat, idx: nat)
    requires p.InRegion() && p.Replicas(m, black, cur, idx) && OnlyFieldChanged(p, m, m', cur, idx)
    requires cur !in black
    requires Traced(p.m0, cur, idx) ==> p.Forwarded(Field(p.m0, cur, idx))
    requires Field(m', p.fwd[cur], idx) ==
             if Traced(p.m0, cur, idx) then p.Image(Field(p.m0, cur, idx)) else Field(m, p.fwd[cur], idx)
    ensures p.Replicas(m', black, cur, idx + 1)
  {
    hide Length, Traced;
    forall a | a in p.fwd
      ensures Tag(m', p.fwd[a]) == Tag(m, p.fwd[a])
    {}
    forall a, j: nat | a in p.fwd && j < Length(p.m0, a) && (a != cur || j != idx)
      ensures Field(m', p.fwd[a], j) == Field(m, p.fwd[a], j)
    {}
  }

  lemma FieldOutside(p: Progress, m: Memory, m': Memory, cur: nat, idx: nat, done: set<nat>)
    requires p.Collectable() && p.Placed() && p.Roots(m, done) && p.Elsewhere(m) && OnlyFieldChanged(p, m, m', cur, idx)
    ensures p.Roots(m', done) && p.Elsewhere(m')
  {
    hide Length, WellFormed, p.Contiguous, p.Ordered;
    forall l | l in p.locs
      ensures Word(m', l) == Word(m, l)
    {}
  }

  /** Forwarding a root location. */
  lemma RootStep(p: Progress, m: Memory, m': Memory, black: set<nat>, cur: nat, idx: nat, done: set<nat>, l: nat)
    requires p.Holds(m, black, cur, idx, done)
    requires l in p.locs && p.Forwarded(Word(p.m0, l))
    requires |m'| == |m| && Word(m', l) == p.Image(Word(p.m0, l))
    requires forall i: int | i != l :: Word(m', i) == Word(m, i)
    ensures p.Holds(m', black, cur, idx, done + {l})
  {
    hide Length, FieldsPointInto, p.Contiguous, p.Ordered, Traced, p.Image, p.FieldOk, p.IsField;
    assert !(p.to <= l < p.top);
    forall a, j: nat | a in p.fwd && j < Length(p.m0, a)
      ensures Field(m', p.fwd[a], j) == Field(m, p.fwd[a], j)
    {}
    assert p.Replicas(m', black, cur, idx);
    RootFromSpace(p, m, m', l);
  }

  lemma RootFromSpace(p: Progress, m: Memory, m': Memory, l: nat)
    requires p.Collectable() && p.FromSpace(m)
    requires l in p.locs && p.Forwarded(Word(p.m0, l))
    requires Word(m', l) == p.Image(Word(p.m0, l))
    requires forall i: int | i != l :: Word(m', i) == Word(m, i)
    ensures p.FromSpace(m')
  {
    hide Length, WellFormed, Traced, p.Image, p.IsField;
    forall a | a in p.objects
      ensures Tag(m', a) == Tag(m, a)
    {
      FieldIsNoTag(p, l, a);
    }
    forall a, j: nat | a in p.objects && j < Length(p.m0, a)
      ensures p.FieldOk(a, j, Field(m', a, j))
    {
      if a + j == l {
        FieldIsTraced(p, l, a, j);
      } else {
        assert p.FieldOk(a, j, Field(m, a, j));
      }
    }
  }

  /** The image of a word never points into the space being collected. */
  lemma ImageLeaves(p: Progress, v: nat)
    requires p.Collectable() && p.InRegion() && p.Forwarded(v)
    ensures !p.range.Contains(p.Image(v))
  {
    hide Length, WellFormed;
    assert p.range.high <= p.to || p.top < p.range.low;
    if p.range.Contains(v) {
      assert p.to < p.fwd[v / 4] <= p.top;
    }
  }

  /** A replica whose fields have all been scanned is black. */
  lemma ObjectDone(p: Progress, m: Memory, black: set<nat>, cur: nat, done: set<nat>)
    requires p.Holds(m, black, cur, Length(p.m0, cur), done) && cur in p.fwd
    ensures p.Holds(m, black + {cur}, 0, 0, done)
  {
    hide Length, Traced, WellFormed, p.Placed;
  }

  /** An object without traced fields needs no scan. */
  lemma NothingTraced(p: Progress, m: Memory, black: set<nat>, cur: nat, done: set<nat>)
    requires p.Holds(m, black, cur, 0, done)
    requires forall j: nat | j < Length(p.m0, cur) :: !Traced(p.m0, cur, j)
    ensures p.Holds(m, black, cur, Length(p.m0, cur), done)
  {
    hide Length, Traced, WellFormed, p.Placed;
  }

  /** The collection copied the live objects and nothing else, each to its own
      place, with every pointer in a copy and in a root location replaced by a
      pointer to the copy, and every other word outside the two spaces kept. */
  ghost predicate IsIsomorphicCopy(p: Progress, m: Memory) {
    && |m| == |p.m0|
    && IsLive(p.m0, p.range, p.locs, p.fwd.Keys)
    && p.Placed()
    && (forall a | a in p.fwd :: Tag(m, p.fwd[a]) == Tag(p.m0, a))
    && (forall a, j: nat | a in p.fwd && j < Length(p.m0, a) ::
          Field(m, p.fwd[a], j) == if Traced(p.m0, a, j) then p.Image(Field(p.m0, a, j)) else Field(p.m0, a, j))
    && (forall l | l in p.locs :: Word(m, l) == p.Image(Word(p.m0, l)))
    && p.Elsewhere(m)
  }

  /** Replicas lie one behind the other in the order of copying. */
  lemma {:induction false} PlaceIs(p: Progress, k: nat)
    requires p.Placed() && k < |p.order|
    ensures p.order[k] in p.fwd && p.fwd[p.order[k]] == p.to + Total(p.m0, p.order[..k]) + 1
  {
    hide Length, p.InRegion, Distinct;
    assert p.order[k] in p.order;
    if k > 0 {
      PlaceIs(p, k - 1);
      assert p.order[..k] == p.order[..k - 1] + [p.order[k - 1]];
      TotalSnoc(p.m0, p.order[..k - 1], p.order[k - 1]);
      assert p.Start(k - 1) + 1 + Length(p.m0, p.order[k - 1]) == p.Start(k);
    }
  }

  /** With every replica scanned and every root forwarded, the copy is complete. */
  lemma CollectionDone(p: Progress, m: Memory, black: set<nat>, done: set<nat>)
    requires p.Holds(m, black, 0, 0, done)
    requires black == p.fwd.Keys && p.locs <= done
    ensures IsIsomorphicCopy(p, m)
  {
    hide Length, WellFormed;
    forall a | a in p.fwd.Keys
      ensures FieldsPointInto(p.m0, a, p.range, p.fwd.Keys)
    {
      hide p.Placed;
      forall j: nat | Traced(p.m0, a, j)
        ensures PointsInto(Field(p.m0, a, j), p.range, p.fwd.Keys)
      {
        assert p.Scanned(black, 0, 0, a, j);
        TargetAligned(p, a, j);
      }
    }
    forall l | l in p.locs
      ensures PointsInto(Word(p.m0, l), p.range, p.fwd.Keys)
    {
      RootAligned(p, l);
    }
  }

  lemma TargetAligned(p: Progress, a: nat, j: nat)
    requires p.Collectable() && p.Ordered() && a in p.fwd && Traced(p.m0, a, j)
    ensures PointsInto(Field(p.m0, a, j), p.range, p.objects)
  {
    assert a in p.order && a in p.objects;
  }

  lemma FieldWithin(p: Progress, s: set<nat>, a: nat, j: nat)
    requires Closed(p.m0, p.range, p.locs, s) && a in s && Traced(p.m0, a, j)
    ensures PointsInto(Field(p.m0, a, j), p.range, s)
  {
    assert FieldsPointInto(p.m0, a, p.range, s);
  }

  lemma RootAligned(p: Progress, l: nat)
    requires p.Collectable() && l in p.locs
    ensures PointsInto(Word(p.m0, l), p.range, p.objects)
  {}

  /** No traced word of an object or root location points into a range. */
  ghost predicate NonePointInto(m: Memory, objects: set<nat>, locs: set<nat>, range: Range) {
    && (forall a, j: nat | a in objects && Traced(m, a, j) :: !range.Contains(Field(m, a, j)))
    && (forall l | l in locs :: !range.Contains(Word(m, l)))
  }

  /** A finished collection, and the range that becomes the heap. */
  ghost predicate Finished(p: Progress, m: Memory, range: Range) {
    && p.Collectable() && IsIsomorphicCopy(p, m)
    && range.low == p.to && p.top <= range.high <= |m|
    && NonePointInto(p.m0, p.objects, p.locs, range)
  }

  lemma ReplicaShape(p: Progress, m: Memory, range: Range, a: nat)
    requires Finished(p, m, range) && a in p.fwd
    ensures a in p.objects && IsObject(p.m0, a) && IsObject(m, p.fwd[a]) && Length(m, p.fwd[a]) == Length(p.m0, a)
    ensures forall j: nat :: Traced(m, p.fwd[a], j) <==> Traced(p.m0, a, j)
  {
    hide Closed, FieldsPointInto, NonePointInto, p.Contiguous;
    assert a in p.order;
    assert Tag(m, p.fwd[a]) == Tag(p.m0, a);
  }

  /** A word is an image of one that pointed to a live object, or of one that
      points into neither space. */
  lemma ImagePoints(p: Progress, range: Range, v: nat)
    requires p.Collectable() && p.InRegion() && p.Forwarded(v)
    requires range.low == p.to && p.top <= range.high && !range.Contains(v)
    ensures PointsInto(p.Image(v), range, p.fwd.Values)
    ensures range.Contains(p.Image(v)) <==> p.range.Contains(v)
    ensures p.range.Contains(v) ==> p.Image(v) == 4 * p.fwd[v / 4]
    ensures !p.range.Contains(p.Image(v))
  {
    hide Length, WellFormed;
    ImageLeaves(p, v);
    if p.range.Contains(v) {
      ReplicaInside(p, range, v / 4);
    }
  }

  lemma ReplicaInside(p: Progress, range: Range, a: nat)
    requires p.InRegion() && a in p.fwd && range.low == p.to && p.top <= range.high
    ensures range.Contains(4 * p.fwd[a]) && p.fwd[a] in p.fwd.Values
  {
    hide Length;
  }

  lemma FieldImage(p: Progress, m: Memory, range: Range, a: nat, j: nat)
    requires Finished(p, m, range) && a in p.fwd && Traced(p.m0, a, j)
    ensures Field(m, p.fwd[a], j) == p.Image(Field(p.m0, a, j))
    ensures p.Forwarded(Field(p.m0, a, j)) && !range.Contains(Field(p.m0, a, j))
  {
    hide p.Placed, WellFormed, IsPointerField;
    assert FieldsPointInto(p.m0, a, p.range, p.fwd.Keys);
    ReplicaShape(p, m, range, a);
  }

  lemma RootImage(p: Progress, m: Memory, range: Range, l: nat)
    requires Finished(p, m, range) && l in p.locs
    ensures Word(m, l) == p.Image(Word(p.m0, l))
    ensures p.Forwarded(Word(p.m0, l)) && !range.Contains(Word(p.m0, l))
  {
    hide p.Placed, WellFormed, Length, FieldsPointInto;
    assert PointsInto(Word(p.m0, l), p.range, p.fwd.Keys);
  }

  /** The space copied to is a well-formed heap again, whose live objects are
      the replicas, and nothing in it points back into the space collected. */
  lemma ReadyAgain(p: Progress, m: Memory, range: Range)
    requires Finished(p, m, range)
    ensures WellFormed(m, range, p.Cursor(), p.fwd.Values, p.locs)
    ensures NonePointInto(m, p.fwd.Values, p.locs, p.range)
    ensures IsLive(m, range, p.locs, p.fwd.Values)
    ensures p.Cursor() <= p.top
  {
    FinishedParts(p, m, range);
    FieldsAgain(p, m, range);
    RootsAgain(p, m, range);
    ShapesAgain(p, m, range);
    LiveAgain(p, m, range);
  }

  lemma FieldsAgain(p: Progress, m: Memory, range: Range)
    requires Finished(p, m, range)
    ensures forall b | b in p.fwd.Values :: FieldsPointInto(m, b, range, p.fwd.Values)
    ensures forall b, j: nat | b in p.fwd.Values && Traced(m, b, j) :: !p.range.Contains(Field(m, b, j))
  {
    hide Finished, Traced, PointsInto, p.Image, p.Forwarded;
    forall b, j: nat | b in p.fwd.Values && Traced(m, b, j)
      ensures PointsInto(Field(m, b, j), range, p.fwd.Values) && !p.range.Contains(Field(m, b, j))
    {
      var a :| a in p.fwd && p.fwd[a] == b;
      ReplicaShape(p, m, range, a);
      FieldImage(p, m, range, a, j);
      FinishedParts(p, m, range);
      ImagePoints(p, range, Field(p.m0, a, j));
    }
  }

  lemma RootsAgain(p: Progress, m: Memory, range: Range)
    requires Finished(p, m, range)
    ensures forall l | l in p.locs :: l < |m| && PointsInto(m[l], range, p.fwd.Values) && !p.range.Contains(m[l])
  {
    hide Finished, PointsInto, p.Image, p.Forwarded;
    FinishedParts(p, m, range);
    forall l | l in p.locs
      ensures l < |m| && PointsInto(m[l], range, p.fwd.Values) && !p.range.Contains(m[l])
    {
      RootImage(p, m, range, l);
      ImagePoints(p, range, Word(p.m0, l));
      assert Word(m, l) == m[l];
    }
  }

  lemma FinishedParts(p: Progress, m: Memory, range: Range)
    requires Finished(p, m, range)
    ensures p.Collectable() && p.InRegion() && range.low == p.to && p.top <= range.high <= |m|
    ensures forall l | l in p.locs :: l < |m|
    ensures p.to <= p.Cursor() <= p.top && IsLive(p.m0, p.range, p.locs, p.fwd.Keys)
  {}

  lemma ShapesAgain(p: Progress, m: Memory, range: Range)
    requires Finished(p, m, range)
    ensures range.low <= p.Cursor() <= range.high <= |m|
    ensures forall b | b in p.fwd.Values :: IsObject(m, b) && range.low < b && b + Length(m, b) <= p.Cursor()
    ensures forall b, c | b in p.fwd.Values && c in p.fwd.Values && b != c :: Apart(m, b, c)
  {
    hide Finished, Length, IsObject, WellFormed, p.Cursor;
    FinishedParts(p, m, range);
    forall b | b in p.fwd.Values
      ensures IsObject(m, b) && range.low < b && b + Length(m, b) <= p.Cursor()
    {
      var a :| a in p.fwd && p.fwd[a] == b;
      ReplicaShape(p, m, range, a);
    }
    forall b, c | b in p.fwd.Values && c in p.fwd.Values && b != c
      ensures Apart(m, b, c)
    {
      var a :| a in p.fwd && p.fwd[a] == b;
      var d :| d in p.fwd && p.fwd[d] == c;
      ReplicaShape(p, m, range, a);
      ReplicaShape(p, m, range, d);
    }
  }

  /** Reachability is carried over both ways: a closed set of the copy pulls
      back to a closed set of the original. */
  lemma LiveAgain(p: Progress, m: Memory, range: Range)
    requires Finished(p, m, range)
    ensures IsLive(m, range, p.locs, p.fwd.Values)
  {
    hide Finished, Length, IsObject, WellFormed, Traced, p.Image, p.Forwarded;
    FieldsAgain(p, m, range);
    RootsAgain(p, m, range);
    FinishedParts(p, m, range);
    forall s | Closed(m, range, p.locs, s)
      ensures p.fwd.Values <= s
    {
      PullBack(p, m, range, s);
    }
  }

  lemma PullBack(p: Progress, m: Memory, range: Range, s: set<nat>)
    requires Finished(p, m, range) && Closed(m, range, p.locs, s)
    ensures p.fwd.Values <= s
  {
    hide Finished, Length, IsObject, WellFormed, Traced, p.Image;
    FinishedParts(p, m, range);
    var s0 := set a | a in p.fwd && p.fwd[a] in s;
    forall l | l in p.locs
      ensures PointsInto(Word(p.m0, l), p.range, s0)
    {
      RootImage(p, m, range, l);
      RootAligned(p, l);
      ImagePoints(p, range, Word(p.m0, l));
      assert PointsInto(Word(m, l), range, s);
    }
    forall a, j: nat | a in s0 && Traced(p.m0, a, j)
      ensures PointsInto(Field(p.m0, a, j), p.range, s0)
    {
      ReplicaShape(p, m, range, a);
      FieldImage(p, m, range, a, j);
      assert FieldsPointInto(p.m0, a, p.range, p.objects) by { assert p.Collectable(); hide p.Placed; FieldsOf(p, a); }
      ImagePoints(p, range, Field(p.m0, a, j));
      assert FieldsPointInto(m, p.fwd[a], range, s);
    }
    assert Closed(p.m0, p.range, p.locs, s0);
  }

  lemma FieldsOf(p: Progress, a: nat)
    requires p.Collectable() && a in p.objects
    ensures FieldsPointInto(p.m0, a, p.range, p.objects)
  {}
}

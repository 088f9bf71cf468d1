/** The generational collector's minor collection: the write list and the
    nursery's roots, then a Cheney scan of the words appended to the tenured
    space. */
module Minor {
  import opened Tags
  import opened HeapGraph
  import opened Copying
  import opened Traversal
  import opened Survivors
  import opened Semi
  import RecordTags

  /** A logged write: the object written, the byte offset of the field, and the
      value overwritten, which only the concurrent collectors use. */
  datatype Entry = Entry(obj: nat, byteOffset: nat, previous: nat)

  datatype Outcome = MinorDone | MajorNeeded | Died

  const TAG_REC_TRACE := 265

  /** The tag of a one-word global is that of a record of one traced field. */
  lemma GlobalTag()
    ensures RecordTags.StaticTag([RecordTags.Flag.Traced]) == TAG_REC_TRACE
  {
    assert RecordTags.StaticMask([RecordTags.Flag.Traced]) == 1;
  }

  const QUAD_ARRAY_TYPE := 3
  const MIRROR_PTR_ARRAY_TYPE := 6

  /** The array types whose fields are skipped, and those whose fields may be roots. */
  predicate HoldsWords(kind: nat) { kind == WORD_ARRAY_TYPE || kind == QUAD_ARRAY_TYPE }

  predicate HoldsPointers(kind: nat) { kind == PTR_ARRAY_TYPE || kind == MIRROR_PTR_ARRAY_TYPE }

  predicate IsTagData(v: nat) { v <= 256 }

  class Generational {
    const proc: Collector
    const staticData: Range
    var nursery: Heap
    var tenured: Heap
    var writelist: seq<Entry>
    var backObjs: seq<nat>
    var promotedGlobal: seq<nat>
    var tenuredGlobal: seq<nat>

    constructor (c: Collector, data: Range, n: Heap, t: Heap)
      ensures proc == c && staticData == data && nursery == n && tenured == t
      ensures writelist == [] && backObjs == [] && promotedGlobal == [] && tenuredGlobal == []
    {
      proc, staticData, nursery, tenured := c, data, n, t;
      writelist, backObjs, promotedGlobal, tenuredGlobal := [], [], [], [];
    }

    predicate IsGlobalData(v: nat) { staticData.Contains(v) }

    /** A global holding a value that may move. */
    predicate IsGlobalRoot(m: Memory, e: Entry) {
      IsGlobalData(e.obj) && !IsGlobalData(Word(m, e.obj / 4)) && !IsTagData(Word(m, e.obj / 4))
    }

    function FieldLoc(e: Entry): nat { e.obj / 4 + e.byteOffset / 4 }

    /** A written pointer-array field that does not hold a tenured object. */
    predicate IsFieldRoot(m: Memory, e: Entry, avoid: Range) {
      && !IsGlobalData(e.obj)
      && HoldsPointers(GetType(Tag(m, e.obj / 4)))
      && !avoid.Contains(Word(m, FieldLoc(e)))
    }

    /** An entry that does not make the collector die. */
    predicate IsLegal(m: Memory, e: Entry) {
      var tag := Tag(m, e.obj / 4);
      if IsGlobalData(e.obj) then tag == TAG_REC_TRACE
      else HoldsWords(GetType(tag)) || HoldsPointers(GetType(tag))
    }

    /** Entries for all arrays the compiler makes are legal, and just those of pointer and
        mirrored arrays can make roots; entries for its records are not legal. */
    lemma EntryKinds(m: Memory, e: Entry, avoid: Range, byteLen: nat, flags: seq<RecordTags.Flag>)
      requires !IsGlobalData(e.obj)
      ensures var tag := Tag(m, e.obj / 4);
              && (tag == RecordTags.WordArrayTag(byteLen) || tag == RecordTags.QuadArrayTag(byteLen) ==>
                    IsLegal(m, e) && !IsFieldRoot(m, e, avoid))
              && (tag == RecordTags.PtrArrayTag(byteLen) || tag == RecordTags.MirrorPtrArrayTag(byteLen) ==>
                    IsLegal(m, e) && (IsFieldRoot(m, e, avoid) <==> !avoid.Contains(Word(m, FieldLoc(e)))))
              && (RecordTags.MakeTag(flags).Some? && tag == RecordTags.StaticTag(flags) ==> !IsLegal(m, e))
    {
      if RecordTags.MakeTag(flags).Some? {
        RecordTags.StaticRead(flags);
      }
    }

    /** An entry whose words are in memory. */
    predicate InMemory(m: Memory, e: Entry) {
      0 < e.obj / 4 <= |m|
      && (IsGlobalData(e.obj) ==> e.obj / 4 < |m|)
      && (HoldsPointers(GetType(Tag(m, e.obj / 4))) ==> FieldLoc(e) < |m|)
    }

    /** Promotes a global unless its value stays where it is. */
    method AddGlobalRoot(global: nat) returns (ok: bool)
      requires 0 < global < proc.mem.Length
      modifies this`promotedGlobal
      ensures ok <==> proc.mem[global - 1] == TAG_REC_TRACE
      ensures promotedGlobal ==
              if ok && !IsGlobalData(proc.mem[global]) && !IsTagData(proc.mem[global])
              then old(promotedGlobal) + [global] else old(promotedGlobal)
    {
      var tag := proc.mem[global - 1];
      if tag != TAG_REC_TRACE {
        return false;
      }
      var value := proc.mem[global];
      if !IsGlobalData(value) && !IsTagData(value) {
        promotedGlobal := promotedGlobal + [global];
      }
      ok := true;
    }

    /** The roots the entries make, in their order, and the globals they promote. */
    function FieldRoots(m: Memory, entries: seq<Entry>, avoid: Range): seq<nat> {
      if entries == [] then []
      else
        var e := entries[|entries| - 1];
        FieldRoots(m, entries[..|entries| - 1], avoid) + if IsFieldRoot(m, e, avoid) then [FieldLoc(e)] else []
    }

    function Promotions(m: Memory, entries: seq<Entry>): seq<nat> {
      if entries == [] then []
      else
        var e := entries[|entries| - 1];
        Promotions(m, entries[..|entries| - 1]) + if IsGlobalRoot(m, e) then [e.obj / 4] else []
    }

    /** Empties the write list: globals with a value that may move are promoted,
        and fields of pointer arrays that hold no tenured object become roots. */
    method ProcessWritelist() returns (ok: bool)
      requires forall e | e in writelist :: InMemory(proc.mem[..], e)
      modifies this`writelist, this`promotedGlobal, proc`roots
      ensures ok <==> forall e | e in old(writelist) :: IsLegal(proc.mem[..], e)
      ensures ok ==> writelist == []
      ensures ok ==> proc.roots == old(proc.roots) + FieldRoots(proc.mem[..], old(writelist), tenured.range)
      ensures ok ==> promotedGlobal == old(promotedGlobal) + Promotions(proc.mem[..], old(writelist))
      ensures ok ==> forall l :: l in proc.roots <==>
                       l in old(proc.roots)
                       || exists e | e in old(writelist) ::
                         IsFieldRoot(proc.mem[..], e, tenured.range) && FieldLoc(e) == l
      ensures ok ==> forall l :: l in promotedGlobal <==>
                       l in old(promotedGlobal)
                       || exists e | e in old(writelist) :: IsGlobalRoot(proc.mem[..], e) && e.obj / 4 == l
    {
      hide FieldRoots, Promotions;
      var entries := writelist;
      writelist := [];
      NoRoots(proc.mem[..], tenured.range);
      for i := 0 to |entries|
        invariant writelist == []
        invariant proc.roots == old(proc.roots) + FieldRoots(proc.mem[..], entries[..i], tenured.range)
        invariant promotedGlobal == old(promotedGlobal) + Promotions(proc.mem[..], entries[..i])
        invariant forall e | e in entries[..i] :: IsLegal(proc.mem[..], e)
      {
        var e := entries[i];
        assert entries[..i + 1] == entries[..i] + [e];
        RootsSnoc(proc.mem[..], entries, tenured.range, i);
        assert InMemory(proc.mem[..], e);
        var tag := proc.mem[e.obj / 4 - 1];
        var kind := GetType(tag);
        if IsGlobalData(e.obj) {
          ok := AddGlobalRoot(e.obj / 4);
          if !ok {
            assert !IsLegal(proc.mem[..], e) && e in entries;
            return;
          }
        } else if HoldsPointers(kind) {
          var data := proc.mem[FieldLoc(e)];
          if !tenured.range.Contains(data) {
            proc.roots := proc.roots + [FieldLoc(e)];
          }
        } else if !HoldsWords(kind) {
          assert !IsLegal(proc.mem[..], e) && e in entries;
          return false;
        }
      }
      assert entries[..|entries|] == entries;
      RootsAre(proc.mem[..], entries, tenured.range);
      ok := true;
    }

    lemma {:induction false} RootsSnoc(m: Memory, entries: seq<Entry>, avoid: Range, i: nat)
      requires i < |entries|
      ensures var e := entries[i];
              && FieldRoots(m, entries[..i + 1], avoid)
              == FieldRoots(m, entries[..i], avoid) + (if IsFieldRoot(m, e, avoid) then [FieldLoc(e)] else [])
              && Promotions(m, entries[..i + 1])
              == Promotions(m, entries[..i]) + if IsGlobalRoot(m, e) then [e.obj / 4] else []
    {
      assert entries[..i + 1][..i] == entries[..i];
    }

    lemma {:induction false} NoRoots(m: Memory, avoid: Range)
      ensures FieldRoots(m, [], avoid) == [] && Promotions(m, []) == []
    {}

    lemma {:induction false} RootsAre(m: Memory, entries: seq<Entry>, avoid: Range)
      ensures forall l :: l in FieldRoots(m, entries, avoid) <==>
                exists e | e in entries :: IsFieldRoot(m, e, avoid) && FieldLoc(e) == l
      ensures forall l :: l in Promotions(m, entries) <==>
                exists e | e in entries :: IsGlobalRoot(m, e) && e.obj / 4 == l
    {
      if entries != [] {
        var front, e := entries[..|entries| - 1], entries[|entries| - 1];
        RootsAre(m, front, avoid);
        hide IsFieldRoot, IsGlobalRoot, FieldLoc;
        assert entries == front + [e];
      }
    }

    /** The heaps as the mutator leaves them: both spaces whole, and static data
        and small words outside them. */
    ghost predicate Ready(w: World)
      reads this, proc.mem
    {
      && nursery.bottom == nursery.range.low <= nursery.cursor <= nursery.top <= nursery.range.high
      && tenured.cursor <= tenured.top <= tenured.range.high
      && w == World(nursery.range, nursery.cursor, w.young, tenured.range, tenured.cursor, w.elders, w.roots)
      && Whole(proc.mem[..], w)
      && SpacesClear(w)
    }

    /** The words a logged write can have touched. */
    ghost predicate IsSound(m: Memory, w: World, e: Entry)
      requires InMemory(m, e)
    {
      if IsGlobalData(e.obj) then e.obj / 4 in w.roots
      else HoldsPointers(GetType(Tag(m, e.obj / 4))) ==>
             e.obj / 4 in w.young + w.elders && e.byteOffset / 4 < Length(m, e.obj / 4)
    }

    /** The work sets hold locations and objects of the right kind. */
    ghost predicate SetsSound(m: Memory, w: World, roots: seq<nat>, promoted: seq<nat>, entries: seq<Entry>)
      reads `backObjs
    {
      && (forall l | l in roots :: l in w.roots)
      && (forall l | l in promoted :: l in w.roots)
      && (forall a | a in backObjs :: a in w.elders)
      && (forall e | e in entries :: InMemory(m, e) && IsSound(m, w, e))
    }

    /** Every word outside the nursery that points into it is a root scanned, a
        global promoted or logged, a field logged, or in a back object. */
    ghost predicate Logged(m: Memory, w: World, roots: seq<nat>, promoted: seq<nat>, entries: seq<Entry>)
      reads `backObjs
    {
      && (forall l | l in w.roots && w.nursery.Contains(Word(m, l)) ::
            l in roots || l in promoted || exists e | e in entries :: IsGlobalData(e.obj) && e.obj / 4 == l)
      && (forall a, j: nat | a in w.elders && Traced(m, a, j) && w.nursery.Contains(Field(m, a, j)) ::
            a in backObjs || exists e | e in entries :: e.obj == 4 * a && e.byteOffset == 4 * j)
    }

    /** A global holding neither static data nor a small word. */
    ghost predicate MayMove(m: Memory, l: nat) { !IsGlobalData(Word(m, l)) && !IsTagData(Word(m, l)) }

    /** Every global that may hold a heap object is known to this or the next major
        collection: promoted, logged, or kept from earlier promotions. */
    ghost predicate GlobalsKnown(m: Memory, w: World, entries: seq<Entry>)
      reads `promotedGlobal, `tenuredGlobal
    {
      forall l | l in w.roots && IsGlobalData(4 * l) && MayMove(m, l) ::
        l in promotedGlobal || l in tenuredGlobal || exists e | e in entries :: IsGlobalData(e.obj) && e.obj / 4 == l
    }

    /** The globals kept for major collections: those kept before, those promoted, and
        those logged whose values may move. */
    ghost predicate Accumulated(m: Memory, tenured: seq<nat>, promoted: seq<nat>, entries: seq<Entry>)
      reads `tenuredGlobal
    {
      forall l :: l in tenuredGlobal <==>
        l in tenured || l in promoted || exists e | e in entries :: IsGlobalRoot(m, e) && e.obj / 4 == l
    }

    /** A collection leaves no global unknown. */
    lemma GlobalsKept(w: World, m: Memory, live: set<nat>, tenured: seq<nat>, promoted: seq<nat>, entries: seq<Entry>)
      requires GraphCarried(w, proc.p, m, live) && SpacesClear(w) && proc.p.range == w.nursery
      requires Accumulated(proc.p.m0, tenured, promoted, entries)
      requires forall l | l in w.roots && IsGlobalData(4 * l) && MayMove(proc.p.m0, l) ::
                 l in promoted || l in tenured || exists e | e in entries :: IsGlobalData(e.obj) && e.obj / 4 == l
      ensures GlobalsKnown(m, After(w, proc.p), [])
    {
      hide Whole, Kept, Moved, IsReachable, NonePointInto, Length, Traced;
      forall l | l in w.roots && IsGlobalData(4 * l) && MayMove(m, l)
        ensures l in tenuredGlobal
      {
        assert Word(m, l) == proc.p.Image(Word(proc.p.m0, l));
        assert MayMove(proc.p.m0, l);
        if l !in promoted && l !in tenured {
          var e :| e in entries && IsGlobalData(e.obj) && e.obj / 4 == l;
          assert IsGlobalRoot(proc.p.m0, e);
        }
      }
    }

    /** Static data and small words lie outside both spaces. */
    ghost predicate SpacesClear(w: World) {
      64 < w.nursery.low && forall v | IsGlobalData(v) :: !w.nursery.Contains(v) && !w.tenured.Contains(v)
    }

    ghost function FieldsOf(m: Memory, a: nat): set<nat> {
      set j: nat | j < Length(m, a) && Traced(m, a, j) :: a + j
    }

    /** The traced fields of the back objects. */
    ghost function BackFields(m: Memory, back: seq<nat>): (s: set<nat>) {
      set a, l | a in back && l in FieldsOf(m, a) :: l
    }

    ghost function Locs(m: Memory): set<nat>
      reads this, proc
    {
      (set l | l in proc.roots) + (set l | l in promotedGlobal) + BackFields(m, backObjs)
    }

    /** The work sets are what processing the entries makes of the ones given. */
    ghost predicate Processed(m: Memory, w: World, roots: seq<nat>, promoted: seq<nat>, entries: seq<Entry>)
      reads this, proc
    {
      && (forall e | e in entries :: IsLegal(m, e))
      && (forall l :: l in proc.roots <==>
            l in roots || exists e | e in entries :: IsFieldRoot(m, e, w.tenured) && FieldLoc(e) == l)
      && (forall l :: l in promotedGlobal <==>
            l in promoted || exists e | e in entries :: IsGlobalRoot(m, e) && e.obj / 4 == l)
    }

    /** After the write list has been processed, the work sets lead to every
        location that must be known, and to nothing else. */
    lemma SetsSuffice(m: Memory, w: World, roots: seq<nat>, promoted: seq<nat>, entries: seq<Entry>)
      requires Whole(m, w) && SpacesClear(w) && SetsSound(m, w, roots, promoted, entries)
      requires Logged(m, w, roots, promoted, entries) && Processed(m, w, roots, promoted, entries)
      ensures Remembered(m, w, Locs(m))
      ensures forall l | l in Locs(m) :: l in w.roots || IsFieldOf(m, w.young, l) || IsFieldOf(m, w.elders, l)
    {
      hide Whole, SpacesClear, SetsSound, Logged, Processed, Locs, Traced, IsFieldOf;
      forall l | l in w.roots && w.nursery.Contains(Word(m, l))
        ensures l in Locs(m)
      {
        RootKnown(m, w, roots, promoted, entries, l);
      }
      forall a, j: nat | a in w.elders && Traced(m, a, j) && w.nursery.Contains(Field(m, a, j))
        ensures a + j in Locs(m)
      {
        FieldKnown(m, w, roots, promoted, entries, a, j);
      }
      forall l | l in Locs(m)
        ensures l in w.roots || IsFieldOf(m, w.young, l) || IsFieldOf(m, w.elders, l)
      {
        LocSound(m, w, roots, promoted, entries, l);
      }
    }

    lemma RootKnown(m: Memory, w: World, roots: seq<nat>, promoted: seq<nat>, entries: seq<Entry>, l: nat)
      requires SpacesClear(w) && Logged(m, w, roots, promoted, entries) && Processed(m, w, roots, promoted, entries)
      requires l in w.roots && w.nursery.Contains(Word(m, l))
      ensures l in Locs(m)
    {
      hide BackFields, IsLegal, IsFieldRoot, Traced;
      if l !in roots && l !in promoted {
        var e :| e in entries && IsGlobalData(e.obj) && e.obj / 4 == l;
        assert IsGlobalRoot(m, e);
      }
    }

    lemma FieldKnown(m: Memory, w: World, roots: seq<nat>, promoted: seq<nat>, entries: seq<Entry>, a: nat, j: nat)
      requires Whole(m, w) && SpacesClear(w)
      requires Logged(m, w, roots, promoted, entries) && Processed(m, w, roots, promoted, entries)
      requires a in w.elders && Traced(m, a, j) && w.nursery.Contains(Field(m, a, j))
      ensures a + j in Locs(m)
    {
      hide IsGlobalRoot, Length, FieldsPointInto, Apart;
      if a in backObjs {
        TracedLength(m, a, j);
        assert a + j in FieldsOf(m, a);
      } else {
        var e :| e in entries && e.obj == 4 * a && e.byteOffset == 4 * j;
        assert IsLegal(m, e);
        assert w.tenured.Contains(e.obj);
        assert IsFieldRoot(m, e, w.tenured);
      }
    }

    lemma LocSound(m: Memory, w: World, roots: seq<nat>, promoted: seq<nat>, entries: seq<Entry>, l: nat)
      requires Whole(m, w) && SetsSound(m, w, roots, promoted, entries) && Processed(m, w, roots, promoted, entries)
      requires l in Locs(m)
      ensures l in w.roots || IsFieldOf(m, w.young, l) || IsFieldOf(m, w.elders, l)
    {
      hide Whole, Length, IsLegal, IsSound, InMemory, IsFieldRoot, FieldLoc;
      if l in BackFields(m, backObjs) {
        var a :| a in backObjs && l in FieldsOf(m, a);
        assert Traced(m, a, l - a);
      } else if l in proc.roots && l !in roots {
        var e :| e in entries && IsFieldRoot(m, e, w.tenured) && FieldLoc(e) == l;
        EntryField(m, w, e);
      } else if l in promotedGlobal && l !in promoted {
        var e :| e in entries && IsGlobalRoot(m, e) && e.obj / 4 == l;
        GlobalEntry(m, w, e);
      }
    }

    lemma GlobalEntry(m: Memory, w: World, e: Entry)
      requires InMemory(m, e) && IsSound(m, w, e) && IsGlobalRoot(m, e)
      ensures e.obj / 4 in w.roots
    {}

    /** A logged field that becomes a root is a traced field. */
    lemma EntryField(m: Memory, w: World, e: Entry)
      requires Whole(m, w) && InMemory(m, e) && IsSound(m, w, e) && IsFieldRoot(m, e, w.tenured)
      ensures IsFieldOf(m, w.young, FieldLoc(e)) || IsFieldOf(m, w.elders, FieldLoc(e))
    {
      var a, j := e.obj / 4, e.byteOffset / 4;
      assert IsObject(m, a) by { hide Length, FieldsPointInto, Apart; }
      hide Whole, Length;
      assert Traced(m, a, j);
      assert FieldLoc(e) - a == j;
    }

    /** A collection of the nursery is under way. */
    ghost predicate Moving(w: World)
      reads this, proc, proc.mem
    {
      && proc.Collecting(0, 0) && Evacuates(w, proc.p) && 0 !in proc.p.objects
    }

    /** What forwarding the locations outside the copied words leaves alone. */
    twostate predicate OnlyPrimary()
      reads proc
    {
      && old(proc.p).ExtendedBy(proc.p) && proc.black == old(proc.black) && old(proc.done) <= proc.done
      && proc.roots == old(proc.roots) && proc.globals == old(proc.globals)
    }

    lemma ElderSeen(w: World, a: nat)
      requires Moving(w) && a in w.elders
      ensures 0 < a <= proc.mem.Length && proc.mem[a - 1] == Tag(proc.p.m0, a) && IsObjectTag(Tag(proc.p.m0, a))
    {
      hide Length, FieldsPointInto, Apart, proc.p.FromSpace, proc.p.Replicas, proc.p.Roots, proc.p.Placed,
           proc.p.OnlyLive;
      ElderTag(w, proc.p, a);
      assert Word(proc.mem[..], a - 1) == Word(proc.p.m0, a - 1);
    }

    /** Forwards a traced field where it stands. */
    method ForwardField(ghost w: World, loc: nat)
      requires Moving(w) && loc in proc.p.locs
      modifies proc, proc.mem
      ensures Moving(w) && OnlyPrimary() && proc.done == old(proc.done) + {loc}
      ensures proc.p.order == Grow(proc.p.range, old(proc.p.order), Word(proc.p.m0, loc))
    {
      hide proc.Collecting, proc.p.Cursor, Whole;
      ghost var at;
      var ok;
      ok, at := proc.LocCopy(loc, false, false, true, 0, 0);
      assert ok by { assert !proc.Stuck(false, at); }
    }

    /** Forwards every traced field of a tenured object in place. */
    method ScanPrimary(ghost w: World, obj: nat)
      requires Moving(w) && obj in w.elders && FieldsOf(proc.p.m0, obj) <= proc.p.locs
      modifies proc, proc.mem
      ensures Moving(w) && OnlyPrimary() && FieldsOf(proc.p.m0, obj) <= proc.done
      ensures proc.p.order == GrowFields(proc.p.m0, proc.p.range, old(proc.p.order), obj, Length(proc.p.m0, obj))
    {
      hide proc.Collecting, proc.p.Cursor, Evacuates, Length, Traced, MaskBit, Shifted, Grow;
      ElderSeen(w, obj);
      ghost var m := proc.p.m0;
      var tag := proc.mem[obj - 1];
      var kind := GetType(tag);
      if kind == RECORD_TYPE {
        var mask := RecMask(tag);
        assert mask == Shifted(RecMask(tag), 0) by { ShiftedBase(mask); }
        for i := 0 to RecLen(tag)
          invariant Moving(w) && OnlyPrimary() && proc.p.m0 == m
          invariant forall j: nat | j < i && Traced(m, obj, j) :: obj + j in proc.done
          invariant proc.p.order == GrowFields(m, proc.p.range, old(proc.p.order), obj, i)
          invariant mask == Shifted(RecMask(tag), i)
        {
          ShiftedBit(RecMask(tag), i);
          FieldIs(m, obj, i);
          if mask % 2 == 1 {
            ForwardField(w, obj + i);
          }
          mask := mask / 2;
        }
      } else if kind == PTR_ARRAY_TYPE {
        for i := 0 to ArrayByteLen(tag) / 4
          invariant Moving(w) && OnlyPrimary() && proc.p.m0 == m
          invariant forall j: nat | j < i && Traced(m, obj, j) :: obj + j in proc.done
          invariant proc.p.order == GrowFields(m, proc.p.range, old(proc.p.order), obj, i)
        {
          FieldIs(m, obj, i);
          ForwardField(w, obj + i);
        }
      } else {
        NothingSeen(m, obj, tag);
        NothingGrows(m, proc.p.range, proc.p.order, obj, Length(m, obj));
      }
      LengthSeen(m, obj, tag);
      FieldsSeen(m, obj, tag);
    }

    lemma NothingSeen(m: Memory, a: nat, tag: nat)
      requires tag == Tag(m, a) && IsObjectTag(tag) && GetType(tag) != RECORD_TYPE && GetType(tag) != PTR_ARRAY_TYPE
      ensures forall j: nat :: !Traced(m, a, j)
    {}

    lemma LengthSeen(m: Memory, a: nat, tag: nat)
      requires tag == Tag(m, a) && IsObjectTag(tag)
      ensures GetType(tag) == RECORD_TYPE ==> Length(m, a) == RecLen(tag)
      ensures GetType(tag) == PTR_ARRAY_TYPE ==> Length(m, a) == ArrayByteLen(tag) / 4
    {}

    lemma FieldIs(m: Memory, a: nat, j: nat)
      ensures Traced(m, a, j) <==> j < DataWords(Tag(m, a)) && IsPointerField(Tag(m, a), j)
      ensures Traced(m, a, j) ==> a + j in FieldsOf(m, a)
    {}

    lemma FieldsSeen(m: Memory, a: nat, tag: nat)
      requires tag == Tag(m, a) && IsObjectTag(tag)
      ensures forall j: nat | Traced(m, a, j) ::
                if GetType(tag) == RECORD_TYPE then j < RecLen(tag)
                else GetType(tag) == PTR_ARRAY_TYPE && j < ArrayByteLen(tag) / 4
    {}

    /** The nursery becomes the space collected, and the copy region takes the
        free end of the tenured space. */
    method Begin(ghost w: World)
      requires Ready(w) && nursery.top - nursery.bottom <= tenured.top - tenured.cursor
      requires Remembered(proc.mem[..], w, Locs(proc.mem[..])) && proc.objs == []
      requires forall l | l in Locs(proc.mem[..]) ::
                 l in w.roots || IsFieldOf(proc.mem[..], w.young, l) || IsFieldOf(proc.mem[..], w.elders, l)
      modifies proc, this`tenured
      ensures Moving(w) && proc.roots == old(proc.roots) && proc.globals == promotedGlobal && proc.objs == []
      ensures proc.RootsLeft(BackFields(proc.mem[..], backObjs)) && proc.black == {}
      ensures proc.p == Progress(proc.mem[..], nursery.range, nursery.cursor, w.young, old(Locs(proc.mem[..])),
                                 old(tenured.cursor), tenured.top, [], map[])
      ensures tenured == old(tenured).(cursor := tenured.top) && proc.copyRange.reserve == tenured.top
    {
      hide Locs, BackFields, Remembered, IsFieldOf;
      ghost var locs := Locs(proc.mem[..]);
      LocsAre();
      proc.globals := promotedGlobal;
      proc.fromSpace := nursery;
      proc.copyRange := CopyRange(tenured.cursor, tenured.cursor, tenured.top, tenured.top);
      proc.p := Progress(proc.mem[..], nursery.range, nursery.cursor, w.young, locs,
                         tenured.cursor, tenured.top, [], map[]);
      tenured := tenured.(cursor := tenured.top);
      proc.black, proc.done, proc.gray := {}, {}, [];
      EvacuatesCollectable(w, proc.p);
      NothingCopied(proc.p);
    }

    lemma LocsAre()
      ensures Locs(proc.mem[..])
           == (set l | l in proc.roots) + (set l | l in promotedGlobal) + BackFields(proc.mem[..], backObjs)
    {}

    lemma NothingCopied(p: Progress)
      requires p.Collectable() && p.order == [] && p.fwd == map[]
      ensures p.Holds(p.m0, {}, 0, 0, {}) && p.Cursor() == p.to && 0 !in p.objects
    {
      hide Length, FieldsPointInto, Apart;
    }

    /** Forwards the roots, the fields of the back objects, the globals, and then
        what the copied words point at. */
    method CopyYoung(ghost w: World, scanStart: nat)
      requires Moving(w) && proc.RootsLeft(BackFields(proc.p.m0, backObjs)) && proc.black == {}
      requires scanStart == proc.p.to && proc.p.order == []
      requires forall a | a in backObjs :: a in w.elders && FieldsOf(proc.p.m0, a) <= proc.p.locs
      modifies proc, proc.mem, this`backObjs
      ensures old(proc.p).ExtendedBy(proc.p) && IsIsomorphicCopy(proc.p, proc.mem[..])
      ensures proc.p.order == YoungOrder(proc.p.m0, proc.p.range, old(proc.roots), old(backObjs), old(proc.globals),
                                         |proc.p.fwd|)
      ensures proc.roots == [] && proc.globals == [] && backObjs == [] && proc.copyRange.cursor == proc.p.Cursor()
    {
      hide proc.Collecting, proc.p.Cursor, Evacuates, FieldsOf, BackFields, IsIsomorphicCopy, proc.p.Holds;
      ghost var m := proc.p.m0;
      ghost var at;
      var ok;
      ok, at := proc.ForwardRoots(false, false, BackFields(m, backObjs));
      assert ok by { assert !proc.Stuck(false, at); }
      EvacuatesKept(w, old(proc.p), proc.p);
      while backObjs != []
        invariant old(proc.p).ExtendedBy(proc.p) && Moving(w) && proc.roots == [] && proc.black == {}
        invariant proc.RootsLeft(BackFields(m, backObjs)) && proc.globals == old(proc.globals)
        invariant GrowObjs(m, proc.p.range, proc.p.order, backObjs)
               == GrowObjs(m, proc.p.range, GrowLocs(m, proc.p.range, [], old(proc.roots)), old(backObjs))
        invariant forall a | a in backObjs :: a in w.elders && FieldsOf(m, a) <= proc.p.locs
        decreases |backObjs|
      {
        var obj := backObjs[|backObjs| - 1];
        BackFieldsSnoc(m, backObjs);
        backObjs := backObjs[..|backObjs| - 1];
        ScanPrimary(w, obj);
      }
      NoBackFields(m);
      ok, at := proc.ForwardGlobals(false, false);
      assert ok by { assert !proc.Stuck(false, at); }
      ok, at := proc.ScanUntil(false, scanStart);
      assert ok by { assert !proc.Stuck(false, at); }
      AllForwarded();
    }

    lemma EvacuatesKept(w: World, p: Progress, q: Progress)
      requires Evacuates(w, p) && p.ExtendedBy(q)
      ensures Evacuates(w, q)
    {
      hide Whole, IsFieldOf;
    }

    lemma AllForwarded()
      requires proc.Collecting(0, 0) && proc.black == proc.p.fwd.Keys && proc.p.locs <= proc.done
      ensures IsIsomorphicCopy(proc.p, proc.mem[..]) && proc.copyRange.cursor == proc.p.Cursor()
    {
      CollectionDone(proc.p, proc.mem[..], proc.black, proc.done);
    }

    lemma NoBackFields(m: Memory)
      ensures BackFields(m, []) == {}
    {}

    lemma BackFieldsSnoc(m: Memory, back: seq<nat>)
      requires back != []
      ensures BackFields(m, back) == BackFields(m, back[..|back| - 1]) + FieldsOf(m, back[|back| - 1])
    {
      hide FieldsOf;
      assert back == back[..|back| - 1] + [back[|back| - 1]];
    }

    lemma BackIncluded(m: Memory, w: World, roots: seq<nat>, promoted: seq<nat>, entries: seq<Entry>)
      requires SetsSound(m, w, roots, promoted, entries)
      ensures forall a | a in backObjs :: a in w.elders && FieldsOf(m, a) <= Locs(m)
    {
      hide FieldsOf;
    }

    lemma EntriesInMemory(m: Memory, w: World)
      requires SetsSound(m, w, proc.roots, promotedGlobal, writelist)
      ensures forall e | e in writelist :: InMemory(m, e)
    {}

    /** Moves the survivors of the nursery to the tenured space, and empties it. */
    method Evacuate(ghost w: World, ghost live: set<nat>)
      requires Ready(w) && nursery.top - nursery.bottom <= tenured.top - tenured.cursor
      requires proc.objs == [] && IsReachable(proc.mem[..], w, live)
      requires Remembered(proc.mem[..], w, Locs(proc.mem[..]))
      requires forall l | l in Locs(proc.mem[..]) ::
                 l in w.roots || IsFieldOf(proc.mem[..], w.young, l) || IsFieldOf(proc.mem[..], w.elders, l)
      requires forall a | a in backObjs :: a in w.elders && FieldsOf(proc.mem[..], a) <= Locs(proc.mem[..])
      modifies this, proc, proc.mem
      ensures GraphCarried(w, proc.p, proc.mem[..], live) && proc.p.m0 == old(proc.mem[..])
      ensures proc.p.range == w.nursery && proc.p.to == w.oldUsed && proc.copyRange == CopyRange(0, 0, 0, 0)
      ensures proc.p.order == YoungOrder(proc.p.m0, w.nursery, old(proc.roots), old(backObjs), old(promotedGlobal),
                                         |proc.p.fwd|)
      ensures Ready(After(w, proc.p)) && Logged(proc.mem[..], After(w, proc.p), [], [], [])
      ensures writelist == old(writelist)
      ensures proc.roots == [] && proc.globals == [] && backObjs == [] && promotedGlobal == []
      ensures tenuredGlobal == old(tenuredGlobal) + old(promotedGlobal)
      ensures nursery == old(nursery).(cursor := old(nursery.bottom))
      ensures tenured == old(tenured).(cursor := proc.p.Cursor())
    {
      hide Whole, GraphCarried, IsReachable, Locs, Remembered, IsIsomorphicCopy, proc.Collecting, FieldsOf, BackFields;
      hide IsFieldOf, proc.p.Cursor, Evacuates, proc.RootsLeft, SpacesClear;
      var scanStart := tenured.cursor;
      Begin(w);
      ghost var q := proc.p;
      CopyYoung(w, scanStart);
      EvacuatesKept(w, q, proc.p);
      tenured := tenured.(cursor := proc.copyRange.cursor);
      proc.copyRange := CopyRange(0, 0, 0, 0);
      nursery := nursery.(cursor := nursery.bottom);
      tenuredGlobal, promotedGlobal := tenuredGlobal + promotedGlobal, [];
      ReadyAfter(w, live);
    }

    lemma ReadyAfter(w: World, live: set<nat>)
      requires Evacuated(w, proc.p, proc.mem[..]) && IsReachable(proc.p.m0, w, live) && SpacesClear(w)
      requires w.nursery == nursery.range && nursery.cursor == nursery.bottom == nursery.range.low
      requires nursery.bottom <= nursery.top <= nursery.range.high
      requires w.tenured == tenured.range && tenured.cursor == proc.p.Cursor()
      requires proc.p.top == tenured.top <= tenured.range.high
      ensures Ready(After(w, proc.p)) && GraphCarried(w, proc.p, proc.mem[..], live)
      ensures Logged(proc.mem[..], After(w, proc.p), [], [], [])
    {
      hide Evacuated, Whole, Traced, IsReachable, proc.p.Cursor;
      EvacuationCarries(w, proc.p, proc.mem[..], live);
      EvacuatedParts(w, proc.p, proc.mem[..]);
    }

    /** A minor collection, or the decision that a major one is needed: when the
        tenured space could not take a full nursery, or a thread asks for it. A
        minor collection dies only on a write-list entry that is neither a
        one-word global nor an array. Otherwise the graph the mutator sees is
        carried over: nothing reachable is lost or changed, and nothing points
        into the nursery, which is empty. */
    method Collect(majorRequest: bool, ghost w: World, ghost live: set<nat>)
      returns (outcome: Outcome)
      requires Ready(w) && proc.objs == [] && IsReachable(proc.mem[..], w, live)
      requires SetsSound(proc.mem[..], w, proc.roots, promotedGlobal, writelist)
      requires Logged(proc.mem[..], w, proc.roots, promotedGlobal, writelist)
      modifies this, proc, proc.mem
      ensures outcome.MajorNeeded? <==>
                majorRequest || old(tenured.top - tenured.cursor) < old(nursery.top - nursery.bottom)
      ensures outcome.MajorNeeded? ==> unchanged(this) && unchanged(proc) && unchanged(proc.mem)
      ensures outcome.Died? <==>
                !outcome.MajorNeeded? && exists e | e in old(writelist) :: !IsLegal(old(proc.mem[..]), e)
      ensures outcome.MinorDone? ==>
                && GraphCarried(w, proc.p, proc.mem[..], live) && proc.p.m0 == old(proc.mem[..])
                && Ready(After(w, proc.p)) && Logged(proc.mem[..], After(w, proc.p), [], [], [])
      ensures outcome.MinorDone? ==>
                && proc.roots == [] && proc.globals == [] && writelist == [] && backObjs == [] && promotedGlobal == []
                && nursery == old(nursery).(cursor := nursery.bottom)
                && tenured == old(tenured).(cursor := proc.p.Cursor())
                && proc.p.range == w.nursery && proc.p.to == w.oldUsed && proc.copyRange == CopyRange(0, 0, 0, 0)
                && proc.p.order == YoungOrder(proc.p.m0, w.nursery,
                                              old(proc.roots) + FieldRoots(proc.p.m0, old(writelist), w.tenured),
                                              old(backObjs),
                                              old(promotedGlobal) + Promotions(proc.p.m0, old(writelist)),
                                              |proc.p.fwd|)
                && Accumulated(old(proc.mem[..]), old(tenuredGlobal), old(promotedGlobal), old(writelist))
      ensures old(GlobalsKnown(proc.mem[..], w, writelist)) && outcome.MinorDone? ==>
                GlobalsKnown(proc.mem[..], After(w, proc.p), writelist)
    {
      hide Whole, SetsSound, Logged, GraphCarried, IsReachable, Locs, Remembered, IsIsomorphicCopy, IsLegal;
      if majorRequest || tenured.top - tenured.cursor < nursery.top - nursery.bottom {
        return MajorNeeded;
      }
      ghost var m, roots, promoted, entries := proc.mem[..], proc.roots, promotedGlobal, writelist;
      assert forall e | e in writelist :: InMemory(m, e) by { EntriesInMemory(m, w); }
      var ok := ProcessWritelist();
      if !ok {
        return Died;
      }
      SetsSuffice(m, w, roots, promoted, entries);
      BackIncluded(m, w, roots, promoted, entries);
      Evacuate(w, live);
      outcome := MinorDone;
      if old(GlobalsKnown(proc.mem[..], w, writelist)) {
        GlobalsKept(w, proc.mem[..], live, old(tenuredGlobal), promoted, entries);
      }
    }
  }
}
/** The space for large objects: chunks of 512 bytes, a bitmap of those in use, and
    during a collection a second one of those marked, which then takes its place. */
module LargeSpace {
  import opened Bitmap
  import opened Packing

  const CHUNK := 512

  function DivideUp(a: nat, b: nat): nat
    requires b > 0
  {
    (a + b - 1) / b
  }

  datatype Align = NoWordAlign | OddWordAlign | EvenWordAlign

  /** The skip word needed before an object at an address. */
  function AlignShift(address: nat, align: Align): nat {
    var curEven := address % 8 == 0;
    if (align.OddWordAlign? && curEven) || (align.EvenWordAlign? && !curEven) then 4 else 0
  }

  /** What the array allocators ask for: floating-point arrays are aligned, and the
      number of their tag words decides on which word. */
  predicate Requested(byteLen: nat, align: Align) {
    && byteLen >= 1024 && byteLen % 4 == 0
    && (align.OddWordAlign? ==> byteLen % 8 == 4) && (align.EvenWordAlign? ==> byteLen % 8 == 0)
  }

  /** A floating-point array of `elemLen` elements, with one tag word and one for each
      segment, is such a request. */
  lemma FloatArrayRequest(elemLen: nat, segments: nat)
    requires 8 * elemLen >= 1024
    ensures Requested(8 * elemLen + 4 + 4 * segments, if segments % 2 == 1 then EvenWordAlign else OddWordAlign)
  {
    var h := segments / 2;
    ModInt(4, 0, 2 * elemLen + 1 + segments);
    if segments % 2 == 1 {
      ModInt(8, 0, elemLen + h + 1);
    } else {
      ModInt(8, 4, elemLen + h);
    }
  }

  /** The chunks an allocation takes. */
  function Needed(byteLen: nat, align: Align): nat {
    DivideUp(byteLen + (if align.NoWordAlign? then 0 else 4), CHUNK)
  }

  /** They are as few as hold the object, and a word besides if an alignment is asked for. */
  lemma NeededLeast(byteLen: nat, align: Align)
    requires byteLen > 0
    ensures var n, bytes := Needed(byteLen, align), byteLen + if align.NoWordAlign? then 0 else 4;
            n > 0 && 512 * (n - 1) < bytes <= 512 * n
  {}

  /** An object: the chunk it begins in, its length, and where in the chunk it begins. */
  datatype Large = Large(chunk: nat, byteLen: nat, shift: nat) {
    predicate Ok() { byteLen > 0 && byteLen % 4 == 0 && (shift == 0 || shift == 4) }

    function First(): nat { CHUNK * chunk + shift }

    /** The chunks its bytes lie in, and those its mark covers. */
    function Occupied(): nat { DivideUp(shift + byteLen, CHUNK) }

    function Marked(): nat { DivideUp(byteLen, CHUNK) }
  }

  /** Each object and the number of chunks in use for it. */
  type Runs = map<Large, nat>

  predicate Has(o: Large, n: nat, i: nat) { o.chunk <= i < o.chunk + n }

  ghost predicate InChunks(runs: Runs, i: nat) { exists o :: o in runs && Has(o, runs[o], i) }

  ghost function ChunksOf(runs: Runs, size: nat): set<nat> { set i | 0 <= i < size && InChunks(runs, i) }

  function MarksOf(marked: set<Large>): Runs { map o | o in marked :: o.Marked() }

  /** Objects with at least the chunks of their marks, and no chunk in common. */
  ghost predicate Apart(runs: Runs, size: nat) {
    && (forall o | o in runs :: o.Ok() && o.Marked() <= runs[o] && o.chunk + runs[o] <= size)
    && (forall o, p, i: nat | o in runs && p in runs && Has(o, runs[o], i) && Has(p, runs[p], i) :: o == p)
  }

  /** Every object has all the chunks its bytes lie in. */
  predicate Covered(runs: Runs) {
    forall o | o in runs :: o.Occupied() <= runs[o]
  }

  /** Objects such as the allocators ask for never end a chunk one word late. */
  predicate Fits(o: Large) { !(o.shift == 4 && o.byteLen % CHUNK == 0) }

  /** The mark covers all the bytes exactly if they do not end a chunk one word late. */
  lemma MarkExact(o: Large)
    requires o.Ok()
    ensures 0 < o.Marked() <= o.Occupied() <= o.Marked() + 1
    ensures o.Marked() == o.Occupied() <==> Fits(o)
    ensures Fits(o) <==> o.First() + o.byteLen <= CHUNK * (o.chunk + o.Marked())
  {
    var q, r := o.byteLen / CHUNK, o.byteLen % CHUNK;
    assert o.byteLen == CHUNK * q + r;
    assert r % 4 == 0;
  }

  /** Chunks begin on even words, so that only an odd request is shifted; and an odd
      request does not fill its last chunk. */
  lemma RequestFits(bottom: nat, chunk: nat, byteLen: nat, align: Align)
    requires bottom % 8 == 0 && byteLen % 4 == 0 && byteLen > 0
    ensures var o := Large(chunk, byteLen, AlignShift(bottom + CHUNK * chunk, align));
            && o.Ok() && o.Marked() <= Needed(byteLen, align) && o.Occupied() <= Needed(byteLen, align)
            && (o.shift == 4 <==> align.OddWordAlign?)
            && (Requested(byteLen, align) ==> Fits(o))
  {
    var o := Large(chunk, byteLen, AlignShift(bottom + CHUNK * chunk, align));
    assert (bottom + CHUNK * chunk) % 8 == 0 by {
      var b := bottom / 8;
      assert bottom + CHUNK * chunk == 8 * (b + 64 * chunk);
    }
    MarkExact(o);
    if byteLen % CHUNK == 0 {
      var q := byteLen / CHUNK;
      assert byteLen == 8 * (64 * q);
    }
  }

  /** Objects whose runs are apart and cover them share no byte. */
  lemma BytesApart(runs: Runs, size: nat, o: Large, p: Large)
    requires Apart(runs, size) && Covered(runs) && o in runs && p in runs && o != p
    ensures o.First() + o.byteLen <= p.First() || p.First() + p.byteLen <= o.First()
    ensures o.First() + o.byteLen <= CHUNK * size
  {
    MarkExact(o);
    MarkExact(p);
    EndsInRun(o, runs[o]);
    EndsInRun(p, runs[p]);
    assert Has(o, runs[o], o.chunk) && Has(p, runs[p], p.chunk);
    if o.chunk <= p.chunk {
      assert !Has(o, runs[o], p.chunk);
    } else {
      assert !Has(p, runs[p], o.chunk);
    }
  }

  lemma EndsInRun(o: Large, n: nat)
    requires o.Ok() && o.Occupied() <= n
    ensures o.First() + o.byteLen <= CHUNK * (o.chunk + n)
  {
    var q, r := (o.shift + o.byteLen) / CHUNK, (o.shift + o.byteLen) % CHUNK;
    assert o.shift + o.byteLen == CHUNK * q + r;
  }

  class Space {
    /** The address of the first chunk. */
    const bottom: nat
    var allocMap: Bitmap
    var markMap: Bitmap
    ghost var runs: Runs
    ghost var marked: set<Large>

    ghost predicate Shape()
      reads this, allocMap, markMap, allocMap.data, markMap.data
    {
      && bottom % 8 == 0
      && allocMap != markMap && allocMap.data != markMap.data && allocMap.size == markMap.size
      && allocMap.Valid() && markMap.Valid()
    }

    /** The bits set are the runs of the objects, which are apart. */
    ghost predicate Tracked()
      reads this, allocMap, markMap, allocMap.data, markMap.data
    {
      Shape() && Apart(runs, allocMap.size) && allocMap.Bits() == ChunksOf(runs, allocMap.size)
    }

    /** Outside a collection: besides, the runs cover the objects' bytes. */
    ghost predicate Valid()
      reads this, allocMap, markMap, allocMap.data, markMap.data
    {
      Tracked() && Covered(runs)
    }

    /** The same, when all objects are such as the allocators ask for. */
    ghost predicate Sound()
      reads this, allocMap, markMap, allocMap.data, markMap.data
    {
      Valid() && forall o | o in runs :: Fits(o)
    }

    /** During a collection: the bits marked are those of the objects marked. */
    ghost predicate Marking()
      reads this, allocMap, markMap, allocMap.data, markMap.data
    {
      Tracked() && marked <= runs.Keys && markMap.Bits() == ChunksOf(MarksOf(marked), allocMap.size)
    }

    constructor (size: nat, address: nat)
      requires size > 0 && address % 8 == 0
      ensures Sound() && runs == map[] && allocMap.size == size && bottom == address
      ensures fresh(allocMap) && fresh(markMap) && fresh(allocMap.data) && fresh(markMap.data)
    {
      bottom := address;
      allocMap := new Bitmap(size);
      markMap := new Bitmap(size);
      runs, marked := map[], {};
      new;
      NoChunks(allocMap.size);
    }

    /** Gives an object a run of chunks with room for its alignment, or nothing when no
        run is long enough. */
    method Alloc(byteLen: nat, align: Align) returns (o: Large, ok: bool)
      requires Valid() && byteLen >= 1024 && byteLen % 4 == 0
      modifies this`runs, allocMap, allocMap.data
      ensures Valid() && allocMap == old(allocMap) && markMap == old(markMap)
      ensures ok ==> o.byteLen == byteLen && o.shift == (if align.OddWordAlign? then 4 else 0)
      ensures ok ==> o !in old(runs) && runs == old(runs)[o := Needed(byteLen, align)]
      ensures !ok <==> !exists c: nat :: IsFree(old(allocMap.Bits()), allocMap.size, c, Needed(byteLen, align))
      ensures !ok ==> runs == old(runs) && allocMap.Bits() == old(allocMap.Bits())
      ensures old(Sound()) && Requested(byteLen, align) ==> Sound()
    {
      hide Apart, ChunksOf, Needed, Range, Requested, Fits, Covered, AlignShift, Bitmap.Bits, IsFree;
      var chunksNeeded := Needed(byteLen, align);
      var bitmapPos := allocMap.AllocBitmapRange(chunksNeeded);
      if bitmapPos < 0 {
        return Large(0, byteLen, 0), false;
      }
      o, ok := Large(bitmapPos, byteLen, AlignShift(bottom + CHUNK * bitmapPos, align)), true;
      Placed(runs, allocMap.size, bottom, o, align);
      runs := runs[o := chunksNeeded];
    }

    method StartCollect()
      requires Tracked()
      modifies this`marked, markMap, markMap.data
      ensures Marking() && marked == {} && allocMap == old(allocMap) && markMap == old(markMap)
    {
      markMap.ClearBitmap();
      marked := {};
      NoChunks(allocMap.size);
    }

    /** Marks the chunks of an object, unless its first one is marked. */
    method AddRoot(o: Large)
      requires Marking() && o in runs
      modifies this`marked, markMap`used, markMap.data
      ensures Marking() && marked == old(marked) + {o}
    {
      hide DivideUp, ChunksOf, Apart, Range, Bitmap.Bits;
      var chunkPos := o.First() / CHUNK;
      var chunkLen := DivideUp(o.byteLen, CHUNK);
      RootChunks(runs, allocMap.size, o);
      MarkOne(runs, marked, allocMap.size, o);
      MarkRun(chunkPos, chunkLen, ChunksOf(MarksOf(marked + {o}), allocMap.size));
      marked := marked + {o};
    }

    /** Sets a run of mark bits unless its first is set. */
    method MarkRun(start: nat, n: nat, ghost target: set<nat>)
      requires Shape() && start + n <= markMap.size
      requires target == if start in markMap.Bits() then markMap.Bits() else markMap.Bits() + Range(start, n)
      modifies markMap`used, markMap.data
      ensures Shape() && markMap.Bits() == target && allocMap.Bits() == old(allocMap.Bits())
    {
      hide Range, Bitmap.Bits;
      var isMarked := markMap.IsSet(start);
      if !isMarked {
        markMap.SetBitmapRange(start, n);
      }
    }

    /** The marked objects are the objects now, and their marks the bits in use. */
    method EndCollect()
      requires Marking()
      modifies this, allocMap, allocMap.data
      ensures Tracked() && runs == MarksOf(old(marked)) && allocMap == old(markMap) && markMap == old(allocMap)
    {
      MarksApart(runs, marked, allocMap.size);
      allocMap.ClearBitmap();
      allocMap, markMap := markMap, allocMap;
      runs := MarksOf(marked);
      marked := {};
    }

    /** A whole collection. The objects then are the roots, and what is in use are their
        marks. These cover the objects' bytes always if all objects are such as the
        allocators ask for; and whatever the objects, exactly when none that is
        live is shifted and ends a chunk with its length. */
    method Collect(roots: seq<Large>)
      requires Valid() && forall k | 0 <= k < |roots| :: roots[k] in runs
      modifies this, allocMap, markMap, allocMap.data, markMap.data
      ensures runs == MarksOf(set o | o in roots) && Tracked()
      ensures Valid() <==> forall o | o in roots :: Fits(o)
      ensures old(Sound()) ==> Sound()
    {
      StartCollect();
      for k := 0 to |roots|
        invariant Marking() && marked == set o | o in roots[..k]
        invariant runs == old(runs) && allocMap == old(allocMap) && markMap == old(markMap)
      {
        assert roots[..k + 1] == roots[..k] + [roots[k]];
        AddRoot(roots[k]);
      }
      assert roots[..|roots|] == roots;
      MarksCover(runs, allocMap.size, set o | o in roots);
      EndCollect();
    }
  }

  /** What the free run an object is put in makes of it. */
  lemma Placed(runs: Runs, size: nat, bottom: nat, o: Large, align: Align)
    requires Apart(runs, size) && bottom % 8 == 0 && o.byteLen >= 1024 && o.byteLen % 4 == 0
    requires o.shift == AlignShift(bottom + CHUNK * o.chunk, align)
    requires IsFree(ChunksOf(runs, size), size, o.chunk, Needed(o.byteLen, align))
    ensures o.shift == (if align.OddWordAlign? then 4 else 0) && (Requested(o.byteLen, align) ==> Fits(o))
    ensures o !in runs && Apart(runs[o := Needed(o.byteLen, align)], size)
    ensures ChunksOf(runs[o := Needed(o.byteLen, align)], size)
         == ChunksOf(runs, size) + Range(o.chunk, Needed(o.byteLen, align))
    ensures Covered(runs) ==> Covered(runs[o := Needed(o.byteLen, align)])
  {
    RequestFits(bottom, o.chunk, o.byteLen, align);
    hide DivideUp, AlignShift, Needed, Requested, Fits, Range, Apart, ChunksOf;
    NewChunks(runs, size, o, Needed(o.byteLen, align));
  }

  lemma RootChunks(runs: Runs, size: nat, o: Large)
    requires Apart(runs, size) && o in runs
    ensures o.First() / CHUNK == o.chunk && o.chunk + o.Marked() <= size
  {
    MarkExact(o);
  }

  lemma NoChunks(size: nat)
    ensures ChunksOf(map[], size) == {} && MarksOf({}) == map[]
  {}

  /** A new object's run is apart from all others. */
  lemma {:induction false} NewChunks(runs: Runs, size: nat, o: Large, n: nat)
    requires Apart(runs, size) && o.Ok() && o.Marked() <= n && IsFree(ChunksOf(runs, size), size, o.chunk, n)
    ensures o !in runs && Apart(runs[o := n], size)
    ensures ChunksOf(runs[o := n], size) == ChunksOf(runs, size) + Range(o.chunk, n)
  {
    NewApart(runs, size, o, n);
    RangeIs(o, n);
    hide Has, Apart, InChunks, Range;
    forall i | 0 <= i < size
      ensures InChunks(runs[o := n], i) <==> InChunks(runs, i) || Has(o, n, i)
    {
      AddChunks(runs, o, n, i);
    }
    assert forall i: nat | i in Range(o.chunk, n) :: i < size by { RangeCount(o.chunk, n); }
  }

  lemma NewApart(runs: Runs, size: nat, o: Large, n: nat)
    requires Apart(runs, size) && o.Ok() && o.Marked() <= n && IsFree(ChunksOf(runs, size), size, o.chunk, n)
    ensures o !in runs && Apart(runs[o := n], size)
  {
    MarkExact(o);
    hide DivideUp;
    forall p, i: nat | p in runs && Has(p, runs[p], i)
      ensures !Has(o, n, i)
    {
      assert InChunks(runs, i);
      assert i < size;
      assert i in ChunksOf(runs, size);
    }
    assert Has(o, n, o.chunk);
    assert o in runs ==> Has(o, runs[o], o.chunk);
  }

  lemma AddChunks(runs: Runs, o: Large, n: nat, i: nat)
    requires o !in runs
    ensures InChunks(runs[o := n], i) <==> InChunks(runs, i) || Has(o, n, i)
  {
    hide Has;
    var more := runs[o := n];
    if Has(o, n, i) {
      assert o in more && Has(o, more[o], i);
    }
    if InChunks(runs, i) {
      var p :| p in runs && Has(p, runs[p], i);
      assert p in more && Has(p, more[p], i);
    }
  }

  lemma {:induction false} RangeIs(o: Large, n: nat)
    ensures forall i: nat :: i in Range(o.chunk, n) <==> Has(o, n, i)
  {
    RangeCount(o.chunk, n);
  }

  /** Marks lie within the objects' runs. */
  lemma MarksApart(runs: Runs, marked: set<Large>, size: nat)
    requires Apart(runs, size) && marked <= runs.Keys
    ensures Apart(MarksOf(marked), size)
  {
    forall o, i: nat | o in marked && Has(o, o.Marked(), i)
      ensures Has(o, runs[o], i)
    {}
  }

  /** Marking an object adds its marks, and if its first chunk is marked they are there
      already. */
  lemma MarkOne(runs: Runs, marked: set<Large>, size: nat, o: Large)
    requires Apart(runs, size) && marked <= runs.Keys && o in runs
    ensures var now := ChunksOf(MarksOf(marked), size);
            ChunksOf(MarksOf(marked + {o}), size) == if o.chunk in now then now else now + Range(o.chunk, o.Marked())
  {
    MarkExact(o);
    MarksApart(runs, marked + {o}, size);
    RangeIs(o, o.Marked());
    if o.chunk in ChunksOf(MarksOf(marked), size) {
      AlreadyMarked(runs, marked, size, o);
    } else {
      NotMarked(runs, marked, size, o);
      assert MarksOf(marked + {o}) == MarksOf(marked)[o := o.Marked()];
      hide Has, Apart;
      forall i | 0 <= i < size
        ensures InChunks(MarksOf(marked + {o}), i) <==> InChunks(MarksOf(marked), i) || Has(o, o.Marked(), i)
      {
        AddChunks(MarksOf(marked), o, o.Marked(), i);
      }
      MarksIn(runs, size, o);
    }
  }

  lemma MarksIn(runs: Runs, size: nat, o: Large)
    requires Apart(runs, size) && o in runs
    ensures forall i: nat | Has(o, o.Marked(), i) :: i < size
  {}

  lemma NotMarked(runs: Runs, marked: set<Large>, size: nat, o: Large)
    requires Apart(runs, size) && marked <= runs.Keys && o in runs && o.chunk !in ChunksOf(MarksOf(marked), size)
    ensures o !in marked
  {
    MarkExact(o);
    assert Has(o, o.Marked(), o.chunk);
    assert o in MarksOf(marked) ==> InChunks(MarksOf(marked), o.chunk);
  }

  lemma AlreadyMarked(runs: Runs, marked: set<Large>, size: nat, o: Large)
    requires Apart(runs, size) && marked <= runs.Keys && o in runs && o.chunk in ChunksOf(MarksOf(marked), size)
    ensures marked + {o} == marked
  {
    var p :| p in MarksOf(marked) && Has(p, p.Marked(), o.chunk);
    MarkExact(o);
    assert Has(p, runs[p], o.chunk) && Has(o, runs[o], o.chunk);
  }

  /** Marks cover the objects' bytes exactly when every object fits. */
  lemma MarksCover(runs: Runs, size: nat, os: set<Large>)
    requires Apart(runs, size) && os <= runs.Keys
    ensures Covered(MarksOf(os)) <==> forall o | o in os :: Fits(o)
  {
    forall o | o in os
      ensures o.Occupied() <= o.Marked() <==> Fits(o)
    {
      MarkExact(o);
    }
  }
}

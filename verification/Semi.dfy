/** The two-space stop-and-copy collector over its word-addressed memory. */
module Semi {
  import opened Tags
  import opened HeapGraph
  import opened Copying
  import opened Traversal
  import opened Wrappers
  import opened Counting

  datatype Heap = Heap(bottom: nat, cursor: nat, top: nat, range: Range)

  datatype CopyRange = CopyRange(start: nat, cursor: nat, stop: nat, reserve: nat)

  /** How gray objects are found: by walking the copied region, or from an
      explicit work set used as a stack or as a queue. */
  datatype Ordering = ImplicitOrder | StackOrder | QueueOrder

  class Collector {
    const mem: array<nat>
    var fromSpace: Heap
    var toSpace: Heap
    var copyRange: CopyRange
    var roots: seq<nat>
    var globals: seq<nat>
    var objs: seq<nat>

    ghost var p: Progress
    ghost var black: set<nat>
    ghost var done: set<nat>
    ghost var gray: seq<nat>

    constructor (m: array<nat>, from: Heap, to: Heap, r: seq<nat>, g: seq<nat>)
      ensures mem == m && fromSpace == from && toSpace == to && roots == r && globals == g && objs == []
      ensures copyRange == CopyRange(0, 0, 0, 0)
    {
      mem := m;
      fromSpace, toSpace, roots, globals, objs := from, to, r, g, [];
      copyRange := CopyRange(0, 0, 0, 0);
      p := Progress([], Range(0, 0), 0, {}, {}, 0, 0, [], map[]);
      black, done, gray := {}, {}, [];
    }

    /** A collection is under way, and the replica of `cur` has been scanned up
        to field `idx`. */
    ghost predicate Collecting(cur: nat, idx: nat)
      reads this, mem
    {
      && p.Holds(mem[..], black, cur, idx, done)
      && (idx == 0 || cur in p.fwd)
      && copyRange.cursor == p.Cursor() && copyRange.stop == p.top
      && fromSpace.range == p.range
      && p.used - p.range.low <= p.top - p.to
    }

    /** The explicit work set holds exactly the replicas not yet scanned. */
    ghost predicate WorkIsGray(cur: nat)
      reads `gray, `objs, `p, `black
    {
      && |gray| == |objs|
      && Distinct(gray)
      && (forall a :: a in gray <==> a in p.fwd && a !in black && a != cur)
      && (forall k | 0 <= k < |gray| :: objs[k] == p.fwd[gray[k]])
    }

    /** The same, with one replica not yet pushed. */
    ghost predicate WorkLacks(white: nat, cur: nat)
      reads `gray, `objs, `p, `black
    {
      && |gray| == |objs|
      && Distinct(gray)
      && white in p.fwd && white !in black && white != cur
      && (forall a :: a in gray <==> a in p.fwd && a != white && a !in black && a != cur)
      && (forall k | 0 <= k < |gray| :: objs[k] == p.fwd[gray[k]])
    }

    /** With the space check on, copying never fills the region to its end. */
    ghost predicate RoomLeft(check: bool)
      reads this
    {
      check ==> p.order == [] || p.Cursor() < p.top
    }

    /** What copying an object leaves alone. */
    twostate predicate OnlyCopied()
      reads this
    {
      && old(p).ExtendedBy(p)
      && black == old(black) && done == old(done)
      && fromSpace == old(fromSpace) && toSpace == old(toSpace)
      && roots == old(roots) && globals == old(globals)
    }

    /** Bumps the cursor of the copy region. With the check on, a request that
        would reach the end of the region goes to the slow path, which asks the
        heap for a new page; the whole heap already belongs to the region, so
        that fails and the collector dies. */
    method AllocFromCopyRange(words: nat, check: bool) returns (region: Option<nat>)
      modifies this`copyRange
      ensures region.None? <==> check && old(copyRange.cursor) + words >= copyRange.stop
      ensures region.None? ==> copyRange == old(copyRange)
      ensures region.Some? ==> region.value == old(copyRange.cursor)
                               && copyRange == old(copyRange).(cursor := region.value + words)
    {
      if check && !(copyRange.cursor + words < copyRange.stop) {
        return None;
      }
      region := Some(copyRange.cursor);
      copyRange := copyRange.(cursor := copyRange.cursor + words);
    }

    /** Copies the data words of an object one by one. */
    method CopyFields(white: nat, obj: nat, n: nat)
      requires white + n <= mem.Length && obj + n <= mem.Length
      requires white + n <= obj || obj + n <= white
      modifies mem
      ensures forall k | obj <= k < obj + n :: mem[k] == old(mem[white + (k - obj)])
      ensures forall k | 0 <= k < mem.Length && !(obj <= k < obj + n) :: mem[k] == old(mem[k])
    {
      for i := 0 to n
        invariant forall k | obj <= k < obj + i :: mem[k] == old(mem[white + (k - obj)])
        invariant forall k | 0 <= k < mem.Length && !(obj <= k < obj + i) :: mem[k] == old(mem[k])
      {
        mem[obj + i] := mem[white + i];
      }
    }

    /** Writes the replica: its fields, its tag, and last the forwarding pointer
        over the tag of the original. */
    method WriteReplica(white: nat, tag: nat, obj: nat, n: nat, ghost q: Progress)
      requires obj == q.Cursor() + 1 && n == Length(q.m0, white) && tag == Tag(mem[..], white)
      requires 0 < white && white + n <= mem.Length && obj + n <= mem.Length
      requires white + n < obj || obj + n < white
      modifies mem
      ensures IsCopyOf(q, old(mem[..]), white, mem[..])
    {
      hide Length, Total;
      ghost var m := mem[..];
      CopyFields(white, obj, n);
      mem[obj - 1] := tag;
      mem[white - 1] := 4 * obj;
      forall j: nat | j < n
        ensures Field(mem[..], obj, j) == Field(m, white, j)
      {
        assert mem[obj + j] == m[white + (obj + j - obj)];
      }
    }

    /** The tag seen in front of an object tells whether it has been copied, and
        if not, how long it is. */
    lemma TagSeen(white: nat, cur: nat, idx: nat)
      requires Collecting(cur, idx) && white in p.objects
      ensures 0 < white && white + Length(p.m0, white) <= mem.Length
      ensures white in p.fwd ==> mem[white - 1] == 4 * p.fwd[white]
      ensures white !in p.fwd ==>
                mem[white - 1] == Tag(p.m0, white) && IsObjectTag(mem[white - 1]) && !TagIsForward(mem[white - 1])
      ensures white !in p.fwd ==> p.Cursor() + 1 + Length(p.m0, white) <= p.top
      ensures p.top <= white - 1 || white + Length(p.m0, white) <= p.to
      ensures p.to <= p.Cursor() && p.top <= mem.Length && black <= p.fwd.Keys
    {
      hide p.Replicas, p.Roots, p.Elsewhere, FieldsPointInto, p.OnlyLive, p.Placed, Length, Apart, p.FieldOk;
      WhitePlaced(white, cur, idx);
      assert Tag(mem[..], white) == mem[white - 1];
      assert IsObject(p.m0, white);
    }

    lemma WhitePlaced(white: nat, cur: nat, idx: nat)
      requires Collecting(cur, idx) && white in p.objects
      ensures 0 < white && white + Length(p.m0, white) <= mem.Length
      ensures p.top <= white - 1 || white + Length(p.m0, white) <= p.to
      ensures p.to <= p.Cursor() && p.top <= mem.Length && black <= p.fwd.Keys
      ensures white !in p.fwd ==> p.Cursor() + 1 + Length(p.m0, white) <= p.top
    {
      hide p.Replicas, p.Roots, p.Elsewhere, FieldsPointInto, p.OnlyLive, p.Placed, p.FromSpace, Length, Apart;
      if white !in p.fwd {
        CopyFits(p, white);
      }
    }

    /** Copies a white object to a region just taken from the copy range. */
    method CopyWhite(white: nat, tag: nat, region: nat, n: nat, ghost cur: nat, ghost idx: nat)
      requires p.Holds(mem[..], black, cur, idx, done) && (idx == 0 || cur in p.fwd)
      requires fromSpace.range == p.range && p.used - p.range.low <= p.top - p.to
      requires white in p.objects && white !in p.fwd
      requires forall s | Closed(p.m0, p.range, p.locs, s) :: white in s
      requires region == p.Cursor() && copyRange.cursor == region + 1 + n && copyRange.stop == p.top
      requires tag == Tag(mem[..], white) && n == Length(p.m0, white) && region + 1 + n <= p.top <= mem.Length
      requires 0 < white && white + n <= mem.Length && (p.top <= white - 1 || white + n <= p.to) && p.to <= region
      modifies mem, this`p
      requires white != cur && black <= p.fwd.Keys
      ensures p == old(p).Copy(white) && OnlyCopied() && Collecting(cur, idx)
      ensures old(WorkIsGray(cur)) ==> WorkLacks(white, cur)
    {
      hide p.Holds, Closed, p.Cursor, Length;
      ghost var m := mem[..];
      WriteReplica(white, tag, region + 1, n, p);
      CopyStep(p, m, white, mem[..], black, cur, idx, done);
      p := p.Copy(white);
    }

    /** Finds the replica of a white object, copying the object when it has none. */
    method GenericAlloc(white: nat, check: bool, push: bool, ghost cur: nat, ghost idx: nat)
      returns (r: Option<nat>)
      requires Collecting(cur, idx) && white in p.objects
      requires forall s | Closed(p.m0, p.range, p.locs, s) :: white in s
      requires push ==> WorkIsGray(cur)
      requires white != cur || cur in p.fwd
      requires RoomLeft(check)
      modifies this, mem
      ensures OnlyCopied() && Collecting(cur, idx) && RoomLeft(check)
      ensures push ==> WorkIsGray(cur)
      ensures !push ==> objs == old(objs)
      ensures push ==> gray == old(gray) + p.order[|old(p.order)|..]
      ensures r.Some? ==> p.order == if white in old(p.fwd) then old(p.order) else old(p.order) + [white]
      ensures r.Some? ==> white in p.fwd && r.value == p.fwd[white]
      ensures r.None? ==> check && white !in p.fwd && p.Cursor() + 1 + Length(p.m0, white) >= p.top
    {
      hide p.Holds, Closed, p.Cursor, WorkIsGray, WorkLacks;
      TagSeen(white, cur, idx);
      var tag := mem[white - 1];
      if TagIsForward(tag) {
        return Some(tag / 4);
      }
      var kind := GetType(tag);
      var dataWords: nat;
      if kind == RECORD_TYPE {
        dataWords := RecLen(tag);
      } else if kind == WORD_ARRAY_TYPE || kind == PTR_ARRAY_TYPE {
        dataWords := (ArrayByteLen(tag) + 3) / 4;
      } else {
        assert false;
      }
      assert dataWords == Length(p.m0, white);
      hide Length;
      var region := AllocFromCopyRange(1 + dataWords, check);
      if region.None? {
        return None;
      }
      var obj := region.value + 1;
      CopyWhite(white, tag, region.value, dataWords, cur, idx);
      if push {
        PushReplica(obj, white, cur);
      }
      return Some(obj);
    }

    method PushReplica(obj: nat, ghost white: nat, ghost cur: nat)
      requires WorkLacks(white, cur) && obj == p.fwd[white]
      modifies this`objs, this`gray
      ensures WorkIsGray(cur) && gray == old(gray) + [white]
    {
      objs := objs + [obj];
      gray := gray + [white];
    }

    /** What the word at a location about to be forwarded is: a root, raw or
        already forwarded, or the next field of the replica being scanned. */
    ghost predicate IsNext(loc: nat, isRoot: bool, cur: nat, idx: nat)
      reads this
    {
      if isRoot then loc in p.locs
      else cur in p.fwd && cur !in black && loc == p.fwd[cur] + idx && Traced(p.m0, cur, idx)
    }

    ghost function Raw(loc: nat, isRoot: bool, cur: nat, idx: nat): nat
      reads this
    {
      if isRoot then Word(p.m0, loc) else Field(p.m0, cur, idx)
    }

    /** The word is the one that was there, or already its image. */
    lemma NextSeen(loc: nat, isRoot: bool, cur: nat, idx: nat)
      requires Collecting(cur, idx) && IsNext(loc, isRoot, cur, idx)
      ensures loc < mem.Length
      ensures var v := Raw(loc, isRoot, cur, idx);
              || (p.range.Contains(v) && mem[loc] == v && v % 4 == 0 && v / 4 in p.objects
                  && forall s | Closed(p.m0, p.range, p.locs, s) :: v / 4 in s)
              || (p.Forwarded(v) && mem[loc] == p.Image(v) && !p.range.Contains(mem[loc]))
    {
      hide p.Holds, Closed, p.Image, p.Forwarded, Traced;
      if isRoot {
        RootSeen(loc, cur, idx);
      } else {
        FieldSeen(cur, idx);
      }
    }

    lemma RootSeen(loc: nat, cur: nat, idx: nat)
      requires Collecting(cur, idx) && loc in p.locs
      ensures loc < mem.Length
      ensures var v := Word(p.m0, loc);
              || (p.range.Contains(v) && mem[loc] == v && v % 4 == 0 && v / 4 in p.objects
                  && forall s | Closed(p.m0, p.range, p.locs, s) :: v / 4 in s)
              || (p.Forwarded(v) && mem[loc] == p.Image(v) && !p.range.Contains(mem[loc]))
    {
      hide Length, IsPointerField, p.FromSpace, p.Replicas, p.Elsewhere, p.Contiguous, FieldsPointInto, p.IsField,
           p.FieldOk;
      var v := Word(p.m0, loc);
      RootAligned(p, loc);
      assert mem[loc] == Word(mem[..], loc);
      if p.Forwarded(v) {
        ImageLeaves(p, v);
      }
    }

    lemma FieldSeen(cur: nat, idx: nat)
      requires Collecting(cur, idx) && cur in p.fwd && cur !in black && Traced(p.m0, cur, idx)
      ensures p.fwd[cur] + idx < mem.Length
      ensures var v, w := Field(p.m0, cur, idx), mem[p.fwd[cur] + idx];
              || (p.range.Contains(v) && w == v && v % 4 == 0 && v / 4 in p.objects
                  && forall s | Closed(p.m0, p.range, p.locs, s) :: v / 4 in s)
              || (p.Forwarded(v) && w == p.Image(v) && !p.range.Contains(w))
    {
      hide Length, IsPointerField, p.FromSpace, p.Roots, p.Elsewhere, p.Contiguous, FieldsPointInto, WellFormed;
      var v := Field(p.m0, cur, idx);
      TargetAligned(p, cur, idx);
      assert idx < Length(p.m0, cur);
      assert p.FieldOk(cur, idx, Field(mem[..], p.fwd[cur], idx));
      assert mem[p.fwd[cur] + idx] == Field(mem[..], p.fwd[cur], idx);
      if p.Forwarded(v) {
        ImageLeaves(p, v);
      }
      forall s | Closed(p.m0, p.range, p.locs, s)
        ensures p.range.Contains(v) ==> v / 4 in s
      {
        assert cur in s;
        FieldWithin(p, s, cur, idx);
      }
    }

    lemma NextDone(m: Memory, loc: nat, isRoot: bool, cur: nat, idx: nat)
      requires p.Holds(m, black, cur, idx, done) && IsNext(loc, isRoot, cur, idx)
      requires loc < |m| == mem.Length
      requires p.Forwarded(Raw(loc, isRoot, cur, idx))
      requires mem[..] == m[loc := p.Image(Raw(loc, isRoot, cur, idx))]
      ensures if isRoot then p.Holds(mem[..], black, cur, idx, done + {loc})
              else p.Holds(mem[..], black, cur, idx + 1, done)
    {
      hide p.Holds;
      if isRoot {
        RootStep(p, m, mem[..], black, cur, idx, done, loc);
      } else {
        FieldStep(p, m, mem[..], black, cur, idx, done);
      }
    }

    /** The object that could not be copied when the collector dies. */
    ghost predicate Stuck(check: bool, at: nat)
      reads this, mem
    {
      && check
      && p.Collectable() && p.Placed() && p.OnlyLive()
      && at in p.objects && at !in p.fwd
      && p.Cursor() + 1 + Length(p.m0, at) >= p.top
      && forall s | Closed(p.m0, p.range, p.locs, s) :: at in s
    }

    lemma StuckAt(check: bool, at: nat, cur: nat, idx: nat)
      requires Collecting(cur, idx) && check && at in p.objects && at !in p.fwd
      requires p.Cursor() + 1 + Length(p.m0, at) >= p.top
      requires forall s | Closed(p.m0, p.range, p.locs, s) :: at in s
      ensures Stuck(check, at)
    {}

    /** The objects reached are those with replicas. */
    lemma GrowIs(cur: nat, idx: nat, v: nat)
      requires Collecting(cur, idx)
      ensures Grow(p.range, p.order, v)
           == if p.range.Contains(v) && v / 4 !in p.fwd then p.order + [v / 4] else p.order
    {
      assert p.Ordered();
      hide p.Holds;
    }

    /** Forwards the word at a location if it points into the space collected. */
    method LocCopy(loc: nat, check: bool, push: bool, ghost isRoot: bool, ghost cur: nat, ghost idx: nat)
      returns (ok: bool, ghost at: nat)
      requires Collecting(cur, idx) && IsNext(loc, isRoot, cur, idx)
      requires push ==> WorkIsGray(cur)
      requires RoomLeft(check) && (cur == 0 || cur in p.fwd) && 0 !in p.objects
      modifies this, mem
      ensures old(p).ExtendedBy(p) && black == old(black)
      ensures fromSpace == old(fromSpace) && toSpace == old(toSpace)
      ensures roots == old(roots) && globals == old(globals)
      ensures RoomLeft(check)
      ensures push ==> WorkIsGray(cur)
      ensures !push ==> objs == old(objs)
      ensures push ==> gray == old(gray) + p.order[|old(p.order)|..]
      ensures ok ==> p.order == Grow(p.range, old(p.order), old(Raw(loc, isRoot, cur, idx)))
      ensures ok && isRoot ==> Collecting(cur, idx) && done == old(done) + {loc}
      ensures ok && !isRoot ==> Collecting(cur, idx + 1)
      ensures !ok || !isRoot ==> done == old(done)
      ensures !ok ==> Stuck(check, at)
    {
      hide Length, Closed, p.Cursor, Traced, p.Holds, Stuck, Grow, WorkIsGray;
      NextSeen(loc, isRoot, cur, idx);
      GrowIs(cur, idx, Raw(loc, isRoot, cur, idx));
      at := 0;
      var obj := mem[loc];
      if fromSpace.range.Contains(obj) {
        at := obj / 4;
        var r := GenericAlloc(obj / 4, check, push, cur, idx);
        if r.None? {
          StuckAt(check, at, cur, idx);
          return false, at;
        }
        ghost var m := mem[..];
        mem[loc] := 4 * r.value;
        NextDone(m, loc, isRoot, cur, idx);
      } else {
        assert mem[..] == mem[..][loc := p.Image(Raw(loc, isRoot, cur, idx))];
        NextDone(mem[..], loc, isRoot, cur, idx);
      }
      if isRoot {
        done := done + {loc};
        assert Collecting(cur, idx);
      } else {
        assert Collecting(cur, idx + 1);
      }
      ok := true;
    }

    lemma ReplicaSeen(cur: nat, idx: nat)
      requires Collecting(cur, idx) && cur in p.fwd
      ensures 0 < p.fwd[cur] <= mem.Length && p.fwd[cur] + Length(p.m0, cur) <= mem.Length
      ensures mem[p.fwd[cur] - 1] == Tag(p.m0, cur) && IsObjectTag(Tag(p.m0, cur))
      ensures p.fwd.Keys <= p.objects
    {
      hide p.Roots, p.Elsewhere, p.OnlyLive, p.FromSpace, FieldsPointInto;
      assert cur in p.order && IsObject(p.m0, cur);
      assert Tag(mem[..], p.fwd[cur]) == Tag(p.m0, cur);
    }

    /** What forwarding the fields of one replica leaves alone. */
    twostate predicate OnlyScanned(push: bool)
      reads this
    {
      && old(p).ExtendedBy(p)
      && done == old(done)
      && fromSpace == old(fromSpace) && toSpace == old(toSpace)
      && roots == old(roots) && globals == old(globals)
      && (!push ==> objs == old(objs))
    }

    /** Forwards the traced fields of a gray replica, making it black, and
        returns the word after it. */
    method GenericScan(obj: nat, check: bool, push: bool, ghost cur: nat)
      returns (ok: bool, next: nat, ghost at: nat)
      requires Collecting(cur, 0) && cur in p.fwd && cur !in black && obj == p.fwd[cur]
      requires push ==> WorkIsGray(cur)
      requires RoomLeft(check) && 0 !in p.objects
      modifies this, mem
      ensures OnlyScanned(push) && RoomLeft(check)
      ensures ok ==> Collecting(0, 0) && black == old(black) + {cur} && next == obj + Length(p.m0, cur)
      ensures ok ==> p.order == GrowFields(p.m0, p.range, old(p.order), cur, Length(p.m0, cur))
      ensures push ==> gray == old(gray) + p.order[|old(p.order)|..]
      ensures ok && push ==> WorkIsGray(0)
      ensures !ok ==> Stuck(check, at)
    {
      hide Length, p.Holds, Closed, p.Cursor, p.Collectable, p.Placed, p.OnlyLive;
      ReplicaSeen(cur, 0);
      at := 0;
      var tag := mem[obj - 1];
      var kind := GetType(tag);
      var fieldLen := 0;
      if kind == RECORD_TYPE {
        fieldLen := RecLen(tag);
        LengthIs(cur, tag, fieldLen);
        ok, at := ScanRecord(obj, tag, check, push, cur);
      } else if kind == WORD_ARRAY_TYPE {
        fieldLen := (ArrayByteLen(tag) + 3) / 4;
        LengthIs(cur, tag, fieldLen);
        NothingTraced(p, mem[..], black, cur, done);
        NothingGrows(p.m0, p.range, p.order, cur, fieldLen);
        ok := true;
      } else if kind == PTR_ARRAY_TYPE {
        fieldLen := ArrayByteLen(tag) / 4;
        LengthIs(cur, tag, fieldLen);
        ok, at := ScanPointerArray(obj, tag, fieldLen, check, push, cur);
      } else {
        assert false;
      }
      if !ok {
        return false, 0, at;
      }
      ObjectDone(p, mem[..], black, cur, done);
      ReplicaSeen(cur, fieldLen);
      black := black + {cur};
      next := obj + fieldLen;
    }

    lemma LengthIs(cur: nat, tag: nat, n: nat)
      requires Tag(p.m0, cur) == tag && n == DataWords(tag)
      ensures Length(p.m0, cur) == n
      ensures forall j: nat :: Traced(p.m0, cur, j) <==> j < n && IsPointerField(tag, j)
    {}

    /** Forwards the next traced field, with the objects reached since the scan began. */
    method ScanTraced(loc: nat, check: bool, push: bool, ghost cur: nat, ghost i: nat, ghost start: seq<nat>,
                      ghost grays: seq<nat>)
      returns (ok: bool, ghost at: nat)
      requires Collecting(cur, i) && IsNext(loc, false, cur, i)
      requires start <= p.order && p.order == GrowFields(p.m0, p.range, start, cur, i)
      requires push ==> WorkIsGray(cur) && gray == grays + p.order[|start|..]
      requires RoomLeft(check) && 0 !in p.objects
      modifies this, mem
      ensures OnlyScanned(push) && RoomLeft(check) && black == old(black) && start <= p.order
      ensures ok ==> Collecting(cur, i + 1) && p.order == GrowFields(p.m0, p.range, start, cur, i + 1)
      ensures push ==> gray == grays + p.order[|start|..]
      ensures ok && push ==> WorkIsGray(cur)
      ensures !ok ==> Stuck(check, at)
    {
      hide Length, p.Holds, Closed, p.Cursor, p.Collectable, p.Placed, p.OnlyLive, Stuck, GrowFields, Grow, Traced,
           WorkIsGray, RoomLeft, Collecting;
      assert cur in p.fwd;
      ghost var q := p.order;
      NextField(loc, cur, i, start);
      ok, at := LocCopy(loc, check, push, false, cur, i);
      assert p.order[|start|..] == q[|start|..] + p.order[|q|..];
    }

    lemma NextField(loc: nat, cur: nat, i: nat, start: seq<nat>)
      requires IsNext(loc, false, cur, i) && p.order == GrowFields(p.m0, p.range, start, cur, i)
      ensures GrowFields(p.m0, p.range, start, cur, i + 1) == Grow(p.range, p.order, Raw(loc, false, cur, i))
    {
      GrowNext(p.m0, p.range, start, cur, i);
    }

    lemma ArrayTraced(cur: nat, tag: nat, i: nat)
      requires Tag(p.m0, cur) == tag && GetType(tag) == PTR_ARRAY_TYPE && i < DataWords(tag)
      ensures Traced(p.m0, cur, i)
    {}

    method ScanPointerArray(obj: nat, tag: nat, fieldLen: nat, check: bool, push: bool, ghost cur: nat)
      returns (ok: bool, ghost at: nat)
      requires Collecting(cur, 0) && cur in p.fwd && cur !in black && obj == p.fwd[cur]
      requires tag == Tag(p.m0, cur) && GetType(tag) == PTR_ARRAY_TYPE && fieldLen == DataWords(tag)
      requires push ==> WorkIsGray(cur)
      requires RoomLeft(check) && 0 !in p.objects
      modifies this, mem
      ensures OnlyScanned(push) && RoomLeft(check) && black == old(black)
      ensures ok ==> Collecting(cur, fieldLen)
      ensures ok ==> p.order == GrowFields(p.m0, p.range, old(p.order), cur, fieldLen)
      ensures push ==> gray == old(gray) + p.order[|old(p.order)|..]
      ensures ok && push ==> WorkIsGray(cur)
      ensures !ok ==> Stuck(check, at)
    {
      hide Length, p.Holds, Closed, p.Cursor, p.Collectable, p.Placed, p.OnlyLive, GrowFields, Stuck, Traced,
           WorkIsGray, RoomLeft;
      at := 0;
      GrowNone(p.m0, p.range, p.order, cur);
      for i := 0 to fieldLen
        invariant Collecting(cur, i) && OnlyScanned(push) && RoomLeft(check) && black == old(black)
        invariant cur in p.fwd && obj == p.fwd[cur]
        invariant push ==> WorkIsGray(cur) && gray == old(gray) + p.order[|old(p.order)|..]
        invariant p.order == GrowFields(p.m0, p.range, old(p.order), cur, i)
      {
        ArrayTraced(cur, tag, i);
        ok, at := ScanTraced(obj + i, check, push, cur, i, old(p.order), old(gray));
        if !ok {
          return false, at;
        }
      }
      ok := true;
    }

    /** The mask is shifted right once per field. */
    method ScanRecord(obj: nat, tag: nat, check: bool, push: bool, ghost cur: nat)
      returns (ok: bool, ghost at: nat)
      requires Collecting(cur, 0) && cur in p.fwd && cur !in black && obj == p.fwd[cur]
      requires tag == Tag(p.m0, cur) && GetType(tag) == RECORD_TYPE
      requires push ==> WorkIsGray(cur)
      requires RoomLeft(check) && 0 !in p.objects
      modifies this, mem
      ensures OnlyScanned(push) && RoomLeft(check) && black == old(black)
      ensures ok ==> Collecting(cur, RecLen(tag))
      ensures ok ==> p.order == GrowFields(p.m0, p.range, old(p.order), cur, RecLen(tag))
      ensures push ==> gray == old(gray) + p.order[|old(p.order)|..]
      ensures ok && push ==> WorkIsGray(cur)
      ensures !ok ==> Stuck(check, at)
    {
      hide Length, p.Holds, Closed, p.Cursor, p.Collectable, p.Placed, p.OnlyLive, Stuck, MaskBit, Shifted,
           GrowFields, Grow, WorkIsGray, RoomLeft;
      at := 0;
      GrowNone(p.m0, p.range, p.order, cur);
      var mask := RecMask(tag);
      assert mask == Shifted(RecMask(tag), 0) by { ShiftedBase(mask); }
      for i := 0 to RecLen(tag)
        invariant Collecting(cur, i) && OnlyScanned(push) && RoomLeft(check) && black == old(black)
        invariant cur in p.fwd && obj == p.fwd[cur]
        invariant push ==> WorkIsGray(cur) && gray == old(gray) + p.order[|old(p.order)|..]
        invariant p.order == GrowFields(p.m0, p.range, old(p.order), cur, i)
        invariant mask == Shifted(RecMask(tag), i)
      {
        ShiftedBit(RecMask(tag), i);
        LengthIs(cur, tag, RecLen(tag));
        if mask % 2 == 1 {
          ok, at := ScanTraced(obj + i, check, push, cur, i, old(p.order), old(gray));
          if !ok {
            return false, at;
          }
        } else {
          FieldStep(p, mem[..], mem[..], black, cur, i, done);
          GrowNext(p.m0, p.range, old(p.order), cur, i);
        }
        mask := mask / 2;
      }
      ok := true;
    }

    /** Every root location has been forwarded, is still in one of the sets, or
        is to be found later. */
    ghost predicate RootsLeft(later: set<nat>)
      reads this
    {
      && (forall l | l in roots :: l in p.locs)
      && (forall l | l in globals :: l in p.locs)
      && (forall l | l in p.locs :: l in done || l in roots || l in globals || l in later)
    }

    /** What forwarding root locations leaves alone. */
    twostate predicate OnlyForwarded(push: bool)
      reads this
    {
      && old(p).ExtendedBy(p) && black == old(black) && old(done) <= done
      && fromSpace == old(fromSpace) && toSpace == old(toSpace)
      && (!push ==> objs == old(objs))
    }

    /** Pops and forwards the root locations. */
    method ForwardRoots(check: bool, push: bool, ghost later: set<nat>) returns (ok: bool, ghost at: nat)
      requires Collecting(0, 0) && RootsLeft(later) && RoomLeft(check) && 0 !in p.objects
      requires push ==> WorkIsGray(0)
      modifies this, mem
      ensures OnlyForwarded(push) && RoomLeft(check)
      ensures ok ==> Collecting(0, 0) && RootsLeft(later) && roots == [] && globals == old(globals)
      ensures ok && push ==> WorkIsGray(0)
      ensures ok ==> p.order == GrowLocs(p.m0, p.range, old(p.order), old(roots))
      ensures push ==> gray == old(gray) + p.order[|old(p.order)|..]
      ensures !ok ==> Stuck(check, at)
    {
      hide p.Holds, p.Cursor, Stuck, Length, WorkIsGray, Grow, GrowLocs;
      at := 0;
      while roots != []
        invariant OnlyForwarded(push) && RoomLeft(check) && globals == old(globals)
        invariant Collecting(0, 0) && RootsLeft(later)
        invariant push ==> WorkIsGray(0) && gray == old(gray) + p.order[|old(p.order)|..]
        invariant GrowLocs(p.m0, p.range, p.order, roots) == GrowLocs(p.m0, p.range, old(p.order), old(roots))
        decreases |roots|
      {
        var loc := roots[|roots| - 1];
        ghost var was := roots;
        roots := roots[..|roots| - 1];
        assert was == roots + [loc];
        GrowLocsSnoc(p.m0, p.range, p.order, roots, loc);
        ok, at := LocCopy(loc, check, push, true, 0, 0);
        if !ok {
          return false, at;
        }
      }
      GrowLocsSnoc(p.m0, p.range, p.order, [], 0);
      ok := true;
    }

    /** Pops and forwards the global locations. */
    method ForwardGlobals(check: bool, push: bool) returns (ok: bool, ghost at: nat)
      requires Collecting(0, 0) && RootsLeft({}) && RoomLeft(check) && 0 !in p.objects && roots == []
      requires push ==> WorkIsGray(0)
      modifies this, mem
      ensures OnlyForwarded(push) && RoomLeft(check)
      ensures ok ==> Collecting(0, 0) && p.locs <= done && roots == [] && globals == []
      ensures ok && push ==> WorkIsGray(0)
      ensures ok ==> p.order == GrowLocs(p.m0, p.range, old(p.order), old(globals))
      ensures push ==> gray == old(gray) + p.order[|old(p.order)|..]
      ensures !ok ==> Stuck(check, at)
    {
      hide p.Holds, p.Cursor, Stuck, Length, WorkIsGray, Grow, GrowLocs;
      at := 0;
      while globals != []
        invariant OnlyForwarded(push) && RoomLeft(check)
        invariant Collecting(0, 0) && RootsLeft({}) && roots == []
        invariant push ==> WorkIsGray(0) && gray == old(gray) + p.order[|old(p.order)|..]
        invariant GrowLocs(p.m0, p.range, p.order, globals) == GrowLocs(p.m0, p.range, old(p.order), old(globals))
        decreases |globals|
      {
        var loc := globals[|globals| - 1];
        ghost var was := globals;
        globals := globals[..|globals| - 1];
        assert was == globals + [loc];
        GrowLocsSnoc(p.m0, p.range, p.order, globals, loc);
        ok, at := LocCopy(loc, check, push, true, 0, 0);
        if !ok {
          return false, at;
        }
      }
      GrowLocsSnoc(p.m0, p.range, p.order, [], 0);
      ok := true;
    }

    /** The object copied as number `k` begins where the scan stands. */
    lemma ScanAt(k: nat, at: nat)
      requires Collecting(0, 0) && k <= |p.order| && at == p.Start(k) && at < copyRange.cursor
      ensures k < |p.order| && p.order[k] in p.fwd && p.fwd[p.order[k]] == at + 1
      ensures at + 1 + Length(p.m0, p.order[k]) == p.Start(k + 1)
      ensures p.order[..k + 1] == p.order[..k] + [p.order[k]] && p.order[k] !in p.order[..k]
    {
      hide Length, p.FromSpace, p.Replicas, p.Roots, p.Elsewhere, p.Collectable, p.OnlyLive, p.InRegion;
      assert k < |p.order| ==> p.order[k] in p.order;
    }

    /** The scan has passed every copied object exactly when it meets the cursor. */
    lemma ScanMeets(k: nat, at: nat)
      requires Collecting(0, 0) && k <= |p.order| && at == p.Start(k) && at >= copyRange.cursor
      ensures k == |p.order| && at == copyRange.cursor
    {
      hide p.FromSpace, p.Replicas, p.Roots, p.Elsewhere, p.Collectable, p.OnlyLive, Length;
      assert forall i | 0 <= i < |p.order| :: p.order[i] in p.order;
    }

    lemma StartKept(q: Progress, k: nat)
      requires q.ExtendedBy(p) && k < |q.order| && q.order[k] in q.fwd
      requires k + 1 < |q.order| ==> q.order[k + 1] in q.fwd
      requires q.Contiguous() && p.Contiguous()
      ensures q.Start(k + 1) == p.Start(k + 1)
    {
      hide Length;
      assert q.Start(k) == p.Start(k);
      assert q.order[k] == p.order[k];
    }

    /** Walks the copied region object by object until it meets the cursor. */
    method ScanUntil(check: bool, start: nat) returns (ok: bool, ghost at: nat)
      requires Collecting(0, 0) && RoomLeft(check) && 0 !in p.objects
      requires black == {} && start == p.to
      modifies this, mem
      ensures OnlyScanned(false) && RoomLeft(check)
      ensures ok ==> Collecting(0, 0) && black == p.fwd.Keys
      ensures ok ==> p.order == Traverse(p.m0, p.range, false, old(p.order), |p.fwd|).0
      ensures !ok ==> Stuck(check, at)
    {
      hide p.Holds, p.Cursor, p.Contiguous, p.Ordered, Stuck, Length, p.Start, Traverse, GrowFields;
      TraverseStart(p.m0, p.range, false, p.order);
      var cur := start;
      ghost var k := 0;
      at := 0;
      PlacedNow(0);
      while cur < copyRange.cursor
        invariant OnlyScanned(false) && RoomLeft(check)
        invariant Collecting(0, 0) && p.Ordered() && p.Contiguous() && p.Cursor() <= p.top
        invariant k <= |p.order| && cur == p.Start(k)
        invariant forall i | 0 <= i < |p.order| :: p.order[i] in p.fwd
        invariant black == set a | a in p.order[..k]
        invariant (p.order, p.order[k..]) == Traverse(p.m0, p.range, false, old(p.order), k)
        decreases p.top - cur
      {
        ScanAt(k, cur);
        ghost var a := p.order[k];
        ghost var q := p;
        ScanBegins(a);
        ok, cur, at := GenericScan(cur + 1, check, false, a);
        if !ok {
          return false, at;
        }
        PlacedNow(0);
        StartKept(q, k);
        assert q.order[k..] == [a] + q.order[k + 1..];
        TraverseNext(q.m0, q.range, false, old(p.order), k, q.order, q.order[k..], a, q.order[k + 1..], p.order);
        assert p.order[k + 1..] == q.order[k + 1..] + p.order[|q.order|..];
        assert p.order[..k + 1] == q.order[..k + 1];
        k := k + 1;
      }
      ScanMeets(k, cur);
      OrderIsKeys();
      assert p.order[..k] == p.order;
      OrderCount();
      ok := true;
    }

    /** Any replica not yet black can be scanned next. */
    lemma ScanBegins(a: nat)
      requires Collecting(0, 0)
      ensures Collecting(a, 0) && black <= p.fwd.Keys <= p.objects
    {
      hide Length, p.FromSpace, p.Roots, p.Elsewhere, p.Collectable, p.OnlyLive, p.InRegion, p.Contiguous, Traced;
    }

    lemma OrderIsKeys()
      requires p.Ordered()
      ensures p.fwd.Keys == set a | a in p.order
    {}

    lemma OrderCount()
      requires p.Ordered()
      ensures |p.fwd| == |p.order|
    {
      ElemsCount(p.order);
      assert |p.fwd| == |p.fwd.Keys| && p.fwd.Keys == Elems(p.order);
    }

    lemma PlacedNow(cur: nat)
      requires Collecting(cur, 0)
      ensures p.Ordered() && p.Contiguous() && p.Start(0) == p.to && p.Cursor() <= p.top
      ensures forall k | 0 <= k < |p.order| :: p.order[k] in p.fwd
    {
      hide p.FromSpace, p.Replicas, p.Roots, p.Elsewhere, p.Collectable, p.OnlyLive, Length;
      assert forall k | 0 <= k < |p.order| :: p.order[k] in p.order;
    }

    /** Takes the last gray replica pushed, or the first. */
    method PopWork(ordering: Ordering) returns (obj: nat, ghost a: nat)
      requires WorkIsGray(0) && objs != [] && 0 !in p.fwd
      modifies this`objs, this`gray
      ensures WorkIsGray(a) && a in p.fwd && a !in black && obj == p.fwd[a]
      ensures old(gray) == if ordering.StackOrder? then gray + [a] else [a] + gray
    {
      ghost var was := gray;
      if ordering.StackOrder? {
        obj, a := objs[|objs| - 1], gray[|gray| - 1];
        objs, gray := objs[..|objs| - 1], gray[..|gray| - 1];
      } else {
        obj, a := objs[0], gray[0];
        objs, gray := objs[1..], gray[1..];
      }
      assert was == gray + [a] || was == [a] + gray;
      assert a in was;
    }

    /** Scans gray objects from the work set until it is empty. */
    method ScanWork(check: bool, ordering: Ordering) returns (ok: bool, ghost at: nat)
      requires Collecting(0, 0) && RoomLeft(check) && 0 !in p.objects && WorkIsGray(0)
      requires black == {} && gray == p.order
      modifies this, mem
      ensures OnlyScanned(true) && RoomLeft(check)
      ensures ok ==> Collecting(0, 0) && black == p.fwd.Keys && objs == []
      ensures ok ==> p.order == Traverse(p.m0, p.range, ordering.StackOrder?, old(p.order), |p.fwd|).0
      ensures !ok ==> Stuck(check, at)
    {
      hide p.Holds, p.Cursor, Stuck, Length, WorkIsGray, Traverse, GrowFields;
      at := 0;
      ScanBegins(0);
      TraverseStart(p.m0, p.range, ordering.StackOrder?, p.order);
      while objs != []
        invariant OnlyScanned(true) && RoomLeft(check)
        invariant Collecting(0, 0) && WorkIsGray(0)
        invariant black <= p.fwd.Keys <= p.objects
        invariant (p.order, gray) == Traverse(p.m0, p.range, ordering.StackOrder?, old(p.order), |black|)
        decreases p.objects - black
      {
        var obj, next;
        ghost var a;
        obj, a := PopWork(ordering);
        ghost var q, rest := p, gray;
        ScanBegins(a);
        ok, next, at := GenericScan(obj, check, true, a);
        if !ok {
          return false, at;
        }
        ghost var was := if ordering.StackOrder? then rest + [a] else [a] + rest;
        TraverseNext(q.m0, q.range, ordering.StackOrder?, old(p.order), |black| - 1, q.order, was, a, rest, p.order);
        ScanBegins(0);
      }
      NoWork();
      ok := true;
    }

    lemma NoWork()
      requires WorkIsGray(0) && objs == [] && 0 !in p.fwd && black <= p.fwd.Keys
      ensures black == p.fwd.Keys
    {
      assert forall a :: a !in gray;
    }

    /** The heap the mutator leaves behind: well-formed objects in fromSpace, a
        toSpace mapped at least as far as fromSpace reaches and not touching it,
        and root locations outside both. */
    ghost predicate Ready(objects: set<nat>, locs: set<nat>)
      reads this, mem
    {
      && fromSpace.bottom == fromSpace.range.low
        && fromSpace.cursor <= fromSpace.top <= fromSpace.range.high <= mem.Length
      && toSpace.bottom == toSpace.range.low
      && toSpace.bottom + (fromSpace.top - fromSpace.bottom) <= toSpace.range.high <= mem.Length
      && (fromSpace.range.high < toSpace.range.low || toSpace.range.high < fromSpace.range.low)
      && WellFormed(mem[..], fromSpace.range, fromSpace.cursor, objects, locs)
      && NonePointInto(mem[..], objects, locs, toSpace.range)
      && (forall l | l in locs ::
            && !(fromSpace.range.low <= l < fromSpace.range.high)
            && !(toSpace.range.low <= l < toSpace.range.high))
    }

    ghost function Locs(): set<nat>
      reads this
    {
      (set l | l in roots) + (set l | l in globals)
    }

    /** toSpace is emptied and made as large as fromSpace, and the copy region
        takes all of it. */
    method AllocEntireCopyRange(ghost objects: set<nat>)
      requires Ready(objects, Locs()) && objs == []
      modifies this
      ensures fromSpace == old(fromSpace) && roots == old(roots) && globals == old(globals) && objs == []
      ensures toSpace.range == old(toSpace.range) && toSpace.bottom == old(toSpace.bottom)
      ensures NonePointInto(p.m0, p.objects, p.locs, toSpace.range) && p.Collectable()
      ensures forall l | l in p.locs :: !(toSpace.range.low <= l < toSpace.range.high)
      ensures p == Progress(mem[..], fromSpace.range, fromSpace.cursor, objects, old(Locs()), toSpace.bottom,
                            toSpace.bottom + (fromSpace.top - fromSpace.bottom), [], map[])
      ensures toSpace.cursor == toSpace.top == copyRange.reserve == p.top
      ensures Collecting(0, 0) && WorkIsGray(0) && RootsLeft({}) && black == {} && gray == [] && 0 !in p.objects
    {
      var size := fromSpace.top - fromSpace.bottom;
      toSpace := toSpace.(cursor := toSpace.bottom, top := toSpace.bottom + size);
      copyRange := CopyRange(toSpace.cursor, toSpace.cursor, toSpace.top, toSpace.top);
      toSpace := toSpace.(cursor := toSpace.top);
      p := Progress(mem[..], fromSpace.range, fromSpace.cursor, objects, Locs(), toSpace.bottom, toSpace.top, [],
                    map[]);
      black, done, gray := {}, {}, [];
      hide WellFormed, NonePointInto, p.Holds, p.Cursor;
      Begun(mem[..], fromSpace, toSpace, p);
      BegunParts(p, mem[..]);
    }

    lemma BegunParts(p: Progress, m: Memory)
      requires p.Holds(m, {}, 0, 0, {})
      ensures p.Collectable()
    {}

    /** Before anything is copied, everything is as the collection found it. */
    lemma Begun(m: Memory, from: Heap, to: Heap, p: Progress)
      requires from.bottom == from.range.low && from.cursor <= from.top <= from.range.high
      requires to.bottom == to.range.low && p.top == to.bottom + (from.top - from.bottom) <= to.range.high <= |m|
      requires from.range.high < to.range.low || to.range.high < from.range.low
      requires WellFormed(m, from.range, from.cursor, p.objects, p.locs)
      requires forall l | l in p.locs ::
                 !(from.range.low <= l < from.range.high) && !(to.range.low <= l < to.range.high)
      requires p == Progress(m, from.range, from.cursor, p.objects, p.locs, to.bottom, p.top, [], map[])
      ensures p.Holds(m, {}, 0, 0, {}) && p.Cursor() == p.to && 0 !in p.objects
    {
      hide Length, FieldsPointInto, Apart;
    }

    /** Why a collection that dies had too little room. */
    lemma StuckMeans(check: bool, at: nat, live: set<nat>)
      requires Stuck(check, at) && IsLive(p.m0, p.range, p.locs, live)
      ensures check && live != {} && Words(p.m0, live) >= p.top - p.to
    {
      hide Length, IsObject, FieldsPointInto, Apart, p.Contiguous, p.InRegion;
      assert p.OnlyLive() && p.fwd.Keys <= live;
      assert Closed(p.m0, p.range, p.locs, p.objects);
      TotalSnoc(p.m0, p.order, at);
      TotalWithin(p.m0, p.range, p.used, p.objects, p.locs, p.order + [at], live);
    }

    lemma DoneMeans(live: set<nat>)
      requires IsIsomorphicCopy(p, mem[..]) && p.Collectable() && IsLive(p.m0, p.range, p.locs, live)
      ensures live == p.fwd.Keys && Words(p.m0, live) == p.Cursor() - p.to
    {
      hide Length, IsObject, FieldsPointInto, Apart, p.Contiguous, p.InRegion;
      assert p.fwd.Keys <= live <= p.fwd.Keys;
      TotalWithin(p.m0, p.range, p.used, p.objects, p.locs, p.order, live);
    }

    /** Forwards the roots and scans gray objects until none is left. */
    method CopyLive(ordering: Ordering, ghost live: set<nat>) returns (ok: bool)
      requires Collecting(0, 0) && WorkIsGray(0) && RootsLeft({}) && black == {} && 0 !in p.objects
      requires p.order == [] && objs == [] && gray == [] && p.to == toSpace.bottom
      requires IsLive(p.m0, p.range, p.locs, live)
      modifies this, mem
      ensures old(p).ExtendedBy(p) && fromSpace == old(fromSpace) && toSpace == old(toSpace)
      ensures ok <==> ordering.ImplicitOrder? || live == {} || Words(p.m0, live) < p.top - p.to
      ensures ok ==> IsIsomorphicCopy(p, mem[..]) && p.fwd.Keys == live
      ensures ok ==> copyRange.cursor == p.Cursor() == p.to + Words(p.m0, live)
      ensures ok ==> p.order == CopyOrder(p.m0, p.range, ordering.StackOrder?, old(roots), old(globals), |live|)
      ensures ok ==> roots == [] && globals == [] && objs == []
    {
      hide p.Holds, p.Cursor, Length, IsLive, Words, p.Collectable, IsIsomorphicCopy, Closed, p.Forwarded, Stuck,
           WorkIsGray, Traverse, GrowLocs;
      var check := !ordering.ImplicitOrder?;
      ghost var at;
      ok, at := ForwardRoots(check, check, {});
      if ok {
        ok, at := ForwardGlobals(check, check);
      }
      if ok {
        if ordering.ImplicitOrder? {
          ok, at := ScanUntil(check, toSpace.bottom);
        } else {
          ok, at := ScanWork(check, ordering);
        }
      }
      if ok {
        Finished(live);
      } else {
        StuckMeans(check, at, live);
      }
    }

    /** One whole collection. The implicit order copies without checking for
        space and always completes. The explicit orders check each request, and
        complete exactly when the live objects leave a word of toSpace free.
        On completion the live graph has been copied, toSpace has become the
        heap, and the words used in it are those of the live objects: the heap
        is ready for the next collection, and everything in it is live. */
    method Collect(ordering: Ordering, ghost objects: set<nat>, ghost live: set<nat>)
      returns (ok: bool, ghost live': set<nat>)
      requires Ready(objects, Locs()) && objs == []
      requires IsLive(mem[..], fromSpace.range, Locs(), live)
      modifies this, mem
      ensures ok <==> ordering.ImplicitOrder? || live == {}
                      || Words(old(mem[..]), live) < old(fromSpace.top) - old(fromSpace.bottom)
      ensures p.m0 == old(mem[..]) && p.range == old(fromSpace.range) && p.locs == old(Locs())
      ensures ok ==> IsIsomorphicCopy(p, mem[..]) && p.fwd.Keys == live
      ensures ok ==> roots == [] && globals == [] && objs == [] && copyRange == CopyRange(0, 0, 0, 0)
      ensures ok ==> p.to == old(toSpace.bottom) == fromSpace.bottom && fromSpace.range == old(toSpace.range)
      ensures ok ==> p.order == CopyOrder(p.m0, p.range, ordering.StackOrder?, old(roots), old(globals), |live|)
      ensures ok ==> fromSpace.cursor == p.Cursor() == fromSpace.bottom + Words(old(mem[..]), live)
      ensures ok ==> fromSpace.top == fromSpace.bottom + (old(fromSpace.top) - old(fromSpace.bottom))
      ensures ok ==> Ready(live', old(Locs())) && IsLive(mem[..], fromSpace.range, old(Locs()), live')
      ensures ok ==> toSpace == old(fromSpace).(cursor := old(fromSpace.bottom), top := old(fromSpace.bottom))
    {
      hide p.Holds, p.Cursor, Length, IsLive, Words, p.Collectable, IsIsomorphicCopy, p.Forwarded, Collecting;
      hide WellFormed, NonePointInto, Locs, WorkIsGray, RootsLeft, RoomLeft;
      AllocEntireCopyRange(objects);
      ghost var q := p;
      ok := CopyLive(ordering, live);
      live' := p.fwd.Values;
      if !ok {
        return;
      }
      StillCollectable(q, p);
      ReadyAgain(p, mem[..], toSpace.range);
      toSpace := toSpace.(cursor := copyRange.cursor);
      copyRange := CopyRange(0, 0, 0, 0);
      fromSpace := fromSpace.(cursor := fromSpace.bottom, top := fromSpace.bottom);
      fromSpace, toSpace := toSpace, fromSpace;
    }

    lemma Finished(live: set<nat>)
      requires Collecting(0, 0) && black == p.fwd.Keys && p.locs <= done
      requires IsLive(p.m0, p.range, p.locs, live)
      ensures IsIsomorphicCopy(p, mem[..]) && p.fwd.Keys == live
      ensures Words(p.m0, live) == p.Cursor() - p.to
      ensures p.order == [] <==> live == {}
    {
      CollectionDone(p, mem[..], black, done);
      Collectable(0, 0);
      DoneMeans(live);
      hide Collecting, IsLive, Words, p.Collectable, p.Contiguous, p.InRegion;
      assert p.fwd.Keys == set a | a in p.order;
      assert p.order != [] ==> p.order[0] in p.order;
    }

    lemma Collectable(cur: nat, idx: nat)
      requires Collecting(cur, idx)
      ensures p.Collectable() && p.Placed()
    {}
  }
}

/** What every step of the replicating collector keeps, careful or not. */
module ReplicatingBase {
  import opened Tags
  import opened Packing
  import opened Replicating
  import opened ReplicatingInv
  import opened ReplicatingFrames

  /** Objects keep their shape and none goes away. */
  predicate Grown(s: State, t: State) {
    && s.heap.Keys <= t.heap.Keys
    && forall id | id in s.heap :: SameShape(t.heap[id], s.heap[id])
  }

  lemma StepGrown(s: State, a: Action)
    requires Enabled(s, a)
    ensures Grown(s, Apply(s, a))
  {
    HeapFrame(s, a);
    hide Apply;
  }

  lemma StepShapes(s: State, b: Start, a: Action)
    requires Base(s, b) && Enabled(s, a)
    ensures Shapes(Apply(s, a), b)
  {
    HeapFrame(s, a);
    CopyFrame(s, a);
    hide Apply, Copies, Pcs, EntriesOk, KnownClosed, CleanKept, YoungGuarded, WordsOk, IsLive, Target, CopyAfter;
  }

  lemma StepWords(s: State, b: Start, a: Action)
    requires Base(s, b) && Enabled(s, a)
    ensures WordsOk(Apply(s, a))
  {
    HeapFrame(s, a);
    hide Apply, Copies, Pcs, EntriesOk, CleanKept, YoungGuarded, IsLive;
  }

  // ---- replicas ----------------------------------------------------------------------

  lemma CopyOkStays(s: State, t: State, id: Id, c: Copy)
    requires Grown(s, t) && id in s.heap && CopyOk(s, id, c)
    ensures id in t.heap && CopyOk(t, id, c)
  {}

  lemma NewCopyOk(t: State, id: Id)
    requires id in t.heap
    ensures CopyOk(t, id, NewCopy(id, t.heap[id]))
  {}

  /** A replica under way, after the step but with the primaries of before. */
  lemma CopyAfterOk(s: State, b: Start, a: Action, id: Id)
    requires Base(s, b) && Enabled(s, a) && id in s.replicas
    ensures id in s.heap && CopyOk(s, id, CopyAfter(s, a, id))
  {
    hide Shapes, EntriesOk, KnownClosed, CleanKept, YoungGuarded, RootsGuarded, CopyOk, WordsOk, Pcs;
    assert CopyOk(s, id, s.replicas[id]);
    if a.StoreField? && s.procs[a.p].log[0].id == id {
      StoredOk(s, a);
    } else if IsScan(a) && a.id == id {
      ScannedOk(s, a);
    }
  }

  lemma StoredOk(s: State, a: Action)
    requires Copies(s) && Pcs(s) && Enabled(s, a) && a.StoreField?
    ensures var id := s.procs[a.p].log[0].id; id in s.heap && CopyOk(s, id, CopyAfter(s, a, id))
  {
    hide ObjectTag;
    assert PcOk(s, s.procs[a.p]);
  }

  lemma ScannedOk(s: State, a: Action)
    requires WordsOk(s) && Copies(s) && Enabled(s, a) && IsScan(a)
    ensures a.id in s.heap && CopyOk(s, a.id, CopyAfter(s, a, a.id))
  {
    hide ObjectTag;
    var c := s.replicas[a.id];
    assert CopyOk(s, a.id, c);
    if a.ScanLoad? {
      assert WordOk(s, a.id, s.heap[a.id].fields[c.phase.next]);
    } else if a.ScanStore? || a.ScanLink? {
      ScanStoresOk(s, a, c);
    }
  }

  lemma ScanStoresOk(s: State, a: Action, c: Copy)
    requires Enabled(s, a) && (a.ScanStore? || a.ScanLink?) && c == s.replicas[a.id] && a.id in s.heap
    requires CopyOk(s, a.id, c)
    ensures CopyOk(s, a.id, CopyAfter(s, a, a.id))
  {
    hide ObjectTag;
    var d := CopyAfter(s, a, a.id);
    assert forall i: nat | i < |d.fields| && i != c.phase.next :: d.fields[i] == c.fields[i];
  }

  lemma StepCopies(s: State, b: Start, a: Action)
    requires Base(s, b) && Enabled(s, a)
    ensures Copies(Apply(s, a))
  {
    hide Apply, CopyOk, CopyAfter, Enabled, Base, NewCopy, Target;
    var t := Apply(s, a);
    CopyFrame(s, a);
    StepGrown(s, a);
    forall id | id in t.replicas
      ensures id in t.heap && CopyOk(t, id, t.replicas[id])
    {
      if id in s.replicas {
        CopyAfterOk(s, b, a, id);
        CopyOkStays(s, t, id, CopyAfter(s, a, id));
      } else {
        NewHeap(s, a, id);
        NewCopyOk(t, id);
      }
    }
  }

  lemma NewHeap(s: State, a: Action, id: Id)
    requires Enabled(s, a) && IsNew(s, a, id)
    ensures id in Apply(s, a).heap && Apply(s, a).heap[id] == s.heap[id]
  {
    HeapFrame(s, a);
    hide Apply;
  }

  /** A scan that has begun goes on. */
  lemma BegunAfter(s: State, a: Action, id: Id)
    requires Enabled(s, a) && id in s.replicas && Begun(s.replicas[id])
    ensures Begun(CopyAfter(s, a, id))
  {
    hide ObjectTag, Image, Writable;
  }

  lemma StillBegun(s: State, a: Action, id: Id)
    requires Enabled(s, a) && id in s.replicas && Begun(s.replicas[id])
    ensures id in Apply(s, a).replicas && Begun(Apply(s, a).replicas[id])
  {
    hide Apply, Enabled, Begun, CopyAfter;
    CopyFrameAt(s, a, id);
    BegunAfter(s, a, id);
  }

  // ---- replays -----------------------------------------------------------------------

  lemma TagKinds(o: Object)
    requires o.isArray
    ensures GetType(ObjectTag(o)) == if o.traced then PTR_ARRAY_TYPE else WORD_ARRAY_TYPE
    ensures GetType(STALL_TAG) != PTR_ARRAY_TYPE && GetType(STALL_TAG) != WORD_ARRAY_TYPE
    ensures ObjectTag(o) != STALL_TAG
  {
    ModInt(8, PTR_ARRAY_TYPE, 4 * |o.fields|);
    ModInt(8, WORD_ARRAY_TYPE, 4 * |o.fields|);
  }

  lemma SameTag(o: Object, q: Object)
    requires SameShape(o, q)
    ensures ObjectTag(o) == ObjectTag(q)
  {}

  /** A processor that does not replay in this step. */
  lemma PcStays(s: State, b: Start, a: Action, p: nat)
    requires Base(s, b) && Enabled(s, a) && p < |s.procs| && !(IsReplay(a) && a.p == p)
    ensures PcOk(Apply(s, a), ProcAfter(s, a, p))
  {
    StepGrown(s, a);
    hide Apply, Shapes, EntriesOk, KnownClosed, CleanKept, YoungGuarded, WordsOk, Copies, ObjectTag;
    var proc := s.procs[p];
    assert PcOk(s, proc);
    if proc.pc != Idle {
      LogStays(s, a, p);
      if !proc.pc.Graying? {
        var id := proc.log[0].id;
        CopyFrameAt(s, a, id);
        SameTag(Apply(s, a).heap[id], s.heap[id]);
        if Begun(s.replicas[id]) {
          StillBegun(s, a, id);
        }
      }
    }
  }

  lemma LogStays(s: State, a: Action, p: nat)
    requires Enabled(s, a) && p < |s.procs| && !(IsReplay(a) && a.p == p)
    requires s.procs[p].pc != Idle && s.procs[p].mode == Releasing && s.procs[p].log != []
    ensures var q := ProcAfter(s, a, p); q.mode == Releasing && q.log == s.procs[p].log && q.pc == s.procs[p].pc
  {}

  lemma PcMoves(s: State, b: Start, a: Action)
    requires Base(s, b) && Enabled(s, a) && IsReplay(a)
    ensures PcOk(Apply(s, a), ProcAfter(s, a, a.p))
  {
    hide Shapes, KnownClosed, CleanKept, YoungGuarded, WordsOk, ObjectTag, CopyAfter, Target, Apply;
    var e := s.procs[a.p].log[0];
    assert EntryOk(s, b, e);
    assert PcOk(s, s.procs[a.p]);
    HeapFrame(s, a);
    CopyFrameAt(s, a, e.id);
    if a.Fetch? {
      FetchMoves(s, b, a);
      StillBegun(s, a, e.id);
    } else if a.ForwardFetched? {
      StillBegun(s, a, e.id);
    } else if a.TestBack? && !Drops(s, a) {
      assert CopyOk(s, e.id, s.replicas[e.id]);
      StillBegun(s, a, e.id);
    } else if a.ReadTag? {
      assert CopyOk(s, e.id, s.replicas[e.id]);
    }
  }

  /** What a fetch makes of the tag. */
  lemma FetchMoves(s: State, b: Start, a: Action)
    requires Base(s, b) && Enabled(s, a) && a.Fetch?
    ensures var e, tag := s.procs[a.p].log[0], s.procs[a.p].pc.tag;
            var w := s.heap[e.id].fields[e.index];
            && (AfterFetch(tag, w) == Dead <==> tag == STALL_TAG)
            && (tag != STALL_TAG ==> AfterFetch(tag, w) == if w.Primary? then Fetched(w) else Storing(w))
            && WordOk(s, e.id, w)
  {
    hide Shapes, KnownClosed, CleanKept, YoungGuarded, Copies, ObjectTag;
    var e := s.procs[a.p].log[0];
    assert EntryOk(s, b, e);
    assert PcOk(s, s.procs[a.p]);
    TagKinds(s.heap[e.id]);
    assert WordOk(s, e.id, s.heap[e.id].fields[e.index]);
  }

  lemma StepPcs(s: State, b: Start, a: Action)
    requires Base(s, b) && Enabled(s, a)
    ensures Pcs(Apply(s, a))
  {
    hide Apply, PcOk, Enabled, Base, ProcAfter;
    ProcFrame(s, a);
    forall p | 0 <= p < |s.procs|
      ensures PcOk(Apply(s, a), ProcAfter(s, a, p))
    {
      if IsReplay(a) && a.p == p {
        PcMoves(s, b, a);
      } else {
        PcStays(s, b, a, p);
      }
    }
  }

  // ---- write lists -------------------------------------------------------------------

  /** Where a write-list entry stood before the step. */
  function Before(s: State, a: Action, p: nat, k: nat): nat
    requires p < |s.procs| && Enabled(s, a)
  {
    if Pops(s, a, p) then k + 1 else k
  }

  predicate IsNewest(s: State, a: Action, p: nat, k: nat)
    requires p < |s.procs|
  {
    a.Write? && a.p == p && k == |s.procs[p].log|
  }

  /** A step keeps write-list entries, apart from one done with at the front and one
      appended at the end. */
  lemma LogStep(s: State, a: Action)
    requires Enabled(s, a)
    ensures var t := Apply(s, a);
      && |t.procs| == |s.procs|
      && (forall p, k | 0 <= p < |s.procs| && 0 <= k < |t.procs[p].log| ::
            if IsNewest(s, a, p, k) then t.procs[p].log[k] == NewEntry(s, a)
            else Before(s, a, p, k) < |s.procs[p].log| && t.procs[p].log[k] == s.procs[p].log[Before(s, a, p, k)])
  {
    ProcFrame(s, a);
    hide Apply, Enabled, Pops, PcAfter, YoungAfter, ModeAfter, NewEntry;
    forall p | 0 <= p < |s.procs|
      ensures Pops(s, a, p) ==> s.procs[p].log != [] && !a.Write?
    {
      PopsSome(s, a, p);
    }
  }

  lemma PopsSome(s: State, a: Action, p: nat)
    requires Enabled(s, a) && p < |s.procs|
    ensures Pops(s, a, p) ==> s.procs[p].log != [] && !a.Write?
  {}

  lemma StepEntryOk(s: State, b: Start, a: Action, e: Entry)
    requires Shapes(s, b) && Enabled(s, a) && EntryOk(s, b, e)
    ensures EntryOk(Apply(s, a), b, e)
  {
    HeapFrame(s, a);
    hide IsLive, Apply;
  }

  lemma NewEntryOk(s: State, b: Start, a: Action)
    requires Shapes(s, b) && KnownClosed(s, b) && CleanKept(s) && Enabled(s, a) && a.Write?
    ensures EntryOk(Apply(s, a), b, NewEntry(s, a))
  {
    HeapFrame(s, a);
    hide IsLive, Apply;
  }

  lemma StepEntries(s: State, b: Start, a: Action)
    requires Base(s, b) && Enabled(s, a)
    ensures EntriesOk(Apply(s, a), b)
  {
    hide Apply, Enabled, EntryOk, NewEntry, Copies, Pcs, YoungGuarded, WordsOk, Shapes, KnownClosed, CleanKept,
         RootsGuarded, SameFirst, Before;
    var t := Apply(s, a);
    LogStep(s, a);
    forall p, k | 0 <= p < |t.procs| && 0 <= k < |t.procs[p].log|
      ensures EntryOk(t, b, t.procs[p].log[k])
    {
      if IsNewest(s, a, p, k) {
        NewEntryOk(s, b, a);
      } else {
        StepEntryOk(s, b, a, s.procs[p].log[Before(s, a, p, k)]);
      }
    }
    forall p, k, q, l | 0 <= p < |t.procs| && 0 <= k < |t.procs[p].log| && 0 <= q < |t.procs|
      && 0 <= l < |t.procs[q].log|
      ensures SameFirst(t.procs[p].log[k], t.procs[q].log[l]) ==> p == q && k == l
    {
      FirstOnce(s, b, a, p, k, q, l);
    }
  }

  lemma FirstOnce(s: State, b: Start, a: Action, p: nat, k: nat, q: nat, l: nat)
    requires Base(s, b) && Enabled(s, a)
    requires var t := Apply(s, a); p < |t.procs| && k < |t.procs[p].log| && q < |t.procs| && l < |t.procs[q].log|
    ensures var t := Apply(s, a); SameFirst(t.procs[p].log[k], t.procs[q].log[l]) ==> p == q && k == l
  {
    hide Apply, Enabled, Base, SameFirst, Pops, NewEntry;
    LogStep(s, a);
    var i, j := Before(s, a, p, k), Before(s, a, q, l);
    if IsNewest(s, a, p, k) {
      if !IsNewest(s, a, q, l) {
        NotFirst(s, b, a, q, j);
      }
    } else if IsNewest(s, a, q, l) {
      NotFirst(s, b, a, p, i);
    } else {
      FirstBefore(s, b, p, i, q, j);
    }
  }

  lemma FirstBefore(s: State, b: Start, p: nat, k: nat, q: nat, l: nat)
    requires Base(s, b) && p < |s.procs| && k < |s.procs[p].log| && q < |s.procs| && l < |s.procs[q].log|
    ensures SameFirst(s.procs[p].log[k], s.procs[q].log[l]) ==> p == q && k == l
  {
    hide Shapes, Copies, Pcs, KnownClosed, CleanKept, YoungGuarded, WordsOk, RootsGuarded, EntryOk, SameFirst;
  }

  lemma NotFirst(s: State, b: Start, a: Action, p: nat, k: nat)
    requires Base(s, b) && Enabled(s, a) && a.Write? && p < |s.procs| && k < |s.procs[p].log|
    ensures !SameFirst(s.procs[p].log[k], NewEntry(s, a)) && !SameFirst(NewEntry(s, a), s.procs[p].log[k])
  {
    hide Shapes, Copies, Pcs, KnownClosed, CleanKept, YoungGuarded, WordsOk, RootsGuarded, EntryOk, SameFirst, Enabled;
    OldFirst(s, b, a, s.procs[p].log[k]);
  }

  /** An entry that was there before is not the first write to a clean field. */
  lemma OldFirst(s: State, b: Start, a: Action, e: Entry)
    requires Base(s, b) && Enabled(s, a) && a.Write? && EntryOk(s, b, e)
    ensures !SameFirst(e, NewEntry(s, a)) && !SameFirst(NewEntry(s, a), e)
  {
    hide Base;
  }

  // ---- primaries ---------------------------------------------------------------------

  lemma StepClean(s: State, b: Start, a: Action)
    requires Base(s, b) && Enabled(s, a)
    ensures CleanKept(Apply(s, a))
  {
    HeapFrame(s, a);
    hide Apply, Copies, Pcs, EntriesOk, KnownClosed, YoungGuarded, WordsOk, IsLive;
  }

  lemma StepKnown(s: State, b: Start, a: Action)
    requires Base(s, b) && Enabled(s, a)
    ensures KnownClosed(Apply(s, a), b)
  {
    HeapFrame(s, a);
    hide Apply, Shapes, Copies, Pcs, EntriesOk, CleanKept, YoungGuarded, WordsOk, RootsGuarded;
    StepHeld(s, b, a);
    var t := Apply(s, a);
    assert Known(s, b) <= Known(t, b) by { KnownGrows(s, b, a); }
  }

  lemma KnownGrows(s: State, b: Start, a: Action)
    requires Base(s, b) && Enabled(s, a)
    ensures Known(Apply(s, a), b) == Known(s, b) + if a.Allocate? then {a.id} else {}
  {
    HeapKeys(s, a);
    hide Apply, Copies, Pcs, EntriesOk, KnownClosed, CleanKept, YoungGuarded, WordsOk, RootsGuarded, IsLive;
  }

  lemma StepHeld(s: State, b: Start, a: Action)
    requires Base(s, b) && Enabled(s, a)
    ensures Apply(s, a).held <= Known(Apply(s, a), b)
  {
    HeldFrame(s, a);
    KnownGrows(s, b, a);
    hide Apply, Shapes, Copies, Pcs, EntriesOk, CleanKept, YoungGuarded, WordsOk, RootsGuarded, Known;
  }

  lemma StepRoots(s: State, b: Start, a: Action)
    requires Base(s, b) && Enabled(s, a)
    ensures RootsGuarded(Apply(s, a), b)
  {
    HeldFrame(s, a);
    CopyFrame(s, a);
    hide Apply, Copies, Pcs, EntriesOk, KnownClosed, CleanKept, YoungGuarded, WordsOk, IsLive, CopyAfter;
    forall id | id in b.roots
      ensures id in Apply(s, a).roots || id in Apply(s, a).replicas
    {
      assert id in s.heap;
    }
  }

  lemma StepYoung(s: State, b: Start, a: Action)
    requires Base(s, b) && Enabled(s, a)
    ensures YoungGuarded(Apply(s, a))
  {
    hide Apply, Enabled, Shapes, Copies, Pcs, EntriesOk, KnownClosed, CleanKept, WordsOk, RootsGuarded, InYoung;
    HeapKeys(s, a);
    YoungInHeap(s, a);
    var t := Apply(s, a);
    forall id | id in t.heap && id !in t.snap
      ensures id in t.replicas || InYoung(t, id)
    {
      CopyFrameAt(s, a, id);
      if id !in s.heap {
        NewYoung(s, a);
      } else if InYoung(s, id) {
        StillYoung(s, a, id);
      }
    }
  }

  lemma HeapKeys(s: State, a: Action)
    requires Enabled(s, a)
    ensures Apply(s, a).heap.Keys == s.heap.Keys + if a.Allocate? then {a.id} else {}
    ensures Apply(s, a).snap == s.snap
  {
    HeapFrame(s, a);
    hide Apply;
  }

  lemma YoungInHeap(s: State, a: Action)
    requires Enabled(s, a) && YoungGuarded(s)
    ensures forall p, k | 0 <= p < |Apply(s, a).procs| && 0 <= k < |Apply(s, a).procs[p].young| ::
              Apply(s, a).procs[p].young[k] in Apply(s, a).heap
  {
    HeapFrame(s, a);
    ProcFrame(s, a);
    hide Apply, InYoung, LogAfter, PcAfter, ModeAfter;
  }

  lemma NewYoung(s: State, a: Action)
    requires Enabled(s, a) && a.Allocate?
    ensures InYoung(Apply(s, a), a.id)
  {
    ProcFrameAt(s, a, a.p);
    hide Apply;
    assert Apply(s, a).procs[a.p].young[|s.procs[a.p].young|] == a.id;
  }

  lemma StillYoung(s: State, a: Action, id: Id)
    requires Enabled(s, a) && InYoung(s, id) && id in s.heap
    ensures InYoung(Apply(s, a), id) || id in Apply(s, a).replicas
  {
    ProcFrame(s, a);
    CopyFrameAt(s, a, id);
    hide Apply, CopyAfter, LogAfter, PcAfter, ModeAfter;
    var t := Apply(s, a);
    var p :| 0 <= p < |s.procs| && id in s.procs[p].young;
    if a.DoubleAllocate? && a.p == p {
      var young := s.procs[p].young;
      assert young == [young[0]] + young[1..];
      assert id == young[0] || id in t.procs[p].young;
    } else {
      assert id in t.procs[p].young;
    }
  }

  /** Every step of mutator or collector, careful or not, keeps this much. */
  lemma StepBase(s: State, b: Start, a: Action)
    requires Base(s, b) && Enabled(s, a)
    ensures Base(Apply(s, a), b)
  {
    StepShapes(s, b, a);
    StepWords(s, b, a);
    StepCopies(s, b, a);
    StepPcs(s, b, a);
    StepEntries(s, b, a);
    StepKnown(s, b, a);
    StepClean(s, b, a);
    StepYoung(s, b, a);
    StepRoots(s, b, a);
    hide *;
  }
}

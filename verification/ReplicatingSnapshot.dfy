/** When the snapshot stays guarded: exactly which steps lose a pointer of it. */
module ReplicatingSnapshot {
  import opened Replicating
  import opened ReplicatingInv
  import opened ReplicatingFrames
  import opened ReplicatingBase
  import opened ReplicatingAgree

  lemma SameSnap(s: State, a: Action)
    requires Enabled(s, a)
    ensures Apply(s, a).snap == s.snap
    ensures forall id, i: nat :: IsEdge(Apply(s, a), id, i) <==> IsEdge(s, id, i)
  {
    HeapFrame(s, a);
    hide Apply;
  }

  lemma EdgeInHeap(s: State, b: Start, id: Id, i: nat)
    requires Base(s, b) && IsEdge(s, id, i)
    ensures EdgeTarget(s, id, i) in s.heap && HasField(s.heap, id, i) && s.heap[id].traced
  {
    hide Copies, Pcs, EntriesOk, KnownClosed, CleanKept, YoungGuarded, WordsOk, IsLive, RootsGuarded;
  }

  lemma StillReplicated(s: State, a: Action, t: Id)
    requires Enabled(s, a) && (t in s.replicas || (Target(s, a) == Primary(t) && t in s.heap))
    ensures t in Apply(s, a).replicas
  {
    CopyFrameAt(s, a, t);
    hide Apply, CopyAfter;
  }

  // ---- a field not yet loaded --------------------------------------------------------

  lemma FromUntouched(s: State, b: Start, a: Action, id: Id, i: nat)
    requires Base(s, b) && Enabled(s, a) && IsEdge(s, id, i) && Untouched(s, id, i)
    ensures IsEdge(Apply(s, a), id, i) && EdgeGuarded(Apply(s, a), id, i)
  {
    SameSnap(s, a);
    EdgeInHeap(s, b, id, i);
    FieldStays(s, a, id, i);
    if Writes(a, id, i) {
      NewFirst(s, a);
    } else {
      CleanStays(s, a, id, i);
      hide Apply, CopyAfter;
      CopyFrameAt(s, a, id);
      if id in s.replicas {
        assert CopyOk(s, id, s.replicas[id]) by { hide Shapes, Pcs, EntriesOk, KnownClosed, CleanKept, YoungGuarded; }
        LoadsOrWaits(s, a, id, i);
        hide Base, Enabled, Unread;
        assert ScanHolds(Apply(s, a), id, EdgeTarget(s, id, i)) || Untouched(Apply(s, a), id, i);
      }
    }
  }

  lemma CleanStays(s: State, a: Action, id: Id, i: nat)
    requires Enabled(s, a) && Untouched(s, id, i) && !Writes(a, id, i)
    ensures (id, i) !in Apply(s, a).dirty && HasField(Apply(s, a).heap, id, i) && HasField(Apply(s, a).snap, id, i)
  {
    HeapFrame(s, a);
    hide Apply;
  }

  lemma NewFirst(s: State, a: Action)
    requires Enabled(s, a) && a.Write? && Untouched(s, a.id, a.index)
    ensures LoggedFirst(Apply(s, a), a.id, a.index)
  {
    ProcFrameAt(s, a, a.p);
    hide Apply;
    assert KeepsFirst(Apply(s, a), a.p, |s.procs[a.p].log|, a.id, a.index);
  }

  /** A field not yet loaded is loaded by this step or still waits. */
  lemma LoadsOrWaits(s: State, a: Action, id: Id, i: nat)
    requires Enabled(s, a) && id in s.replicas && HasField(s.heap, id, i) && Unread(s.replicas[id], i)
    ensures var c := CopyAfter(s, a, id); Unread(c, i) || InScan(c) == s.heap[id].fields[i]
  {
    hide ObjectTag, Writable;
  }

  // ---- a logged write ----------------------------------------------------------------

  /** The replay comes to the point where it looks at the value lost no more. */
  predicate Spends(s: State, a: Action, p: nat, k: nat)
    requires Enabled(s, a) && p < |s.procs|
  {
    k == 0 && ((Drops(s, a) && a.p == p) || (a.Fetch? && a.p == p && PcAfter(s, a, p) != Dead))
  }

  lemma FromFirst(s: State, b: Start, a: Action, p: nat, k: nat, id: Id, i: nat)
    requires Base(s, b) && Enabled(s, a) && IsEdge(s, id, i) && KeepsFirst(s, p, k, id, i) && !Spends(s, a, p, k)
    ensures IsEdge(Apply(s, a), id, i) && EdgeGuarded(Apply(s, a), id, i)
  {
    SameSnap(s, a);
    EdgeInHeap(s, b, id, i);
    if Pops(s, a, p) && k == 0 {
      Grayed(s, b, a, id, i);
      StillReplicated(s, a, EdgeTarget(s, id, i));
    } else {
      FirstStays(s, a, p, k, id, i);
      hide Apply, Base, Enabled;
      var l := if Pops(s, a, p) then k - 1 else k;
      assert KeepsFirst(Apply(s, a), p, l, id, i);
    }
  }

  /** Only a replay that replicates the value lost is done with a first write before
      that point. */
  lemma Grayed(s: State, b: Start, a: Action, id: Id, i: nat)
    requires Base(s, b) && Enabled(s, a) && IsReplay(a) && IsEdge(s, id, i)
    requires KeepsFirst(s, a.p, 0, id, i) && Pops(s, a, a.p) && !Spends(s, a, a.p, 0)
    ensures Target(s, a) == Primary(EdgeTarget(s, id, i))
  {
    EdgeInHeap(s, b, id, i);
    hide Copies, KnownClosed, CleanKept, YoungGuarded, WordsOk, IsLive, RootsGuarded;
    assert EntryOk(s, b, s.procs[a.p].log[0]);
    assert PcOk(s, s.procs[a.p]);
  }

  lemma FirstStays(s: State, a: Action, p: nat, k: nat, id: Id, i: nat)
    requires Enabled(s, a) && KeepsFirst(s, p, k, id, i) && !Spends(s, a, p, k) && !(Pops(s, a, p) && k == 0)
    ensures KeepsFirst(Apply(s, a), p, if Pops(s, a, p) then k - 1 else k, id, i)
  {
    EntryStep(s, a, p, k);
    hide Apply;
  }

  // ---- a pointer in hand -------------------------------------------------------------

  lemma FromReplay(s: State, b: Start, a: Action, p: nat, t: Id)
    requires Base(s, b) && Enabled(s, a) && ReplayHolds(s, p, t)
    ensures t in Apply(s, a).replicas || ReplayHolds(Apply(s, a), p, t)
  {
    ProcFrameAt(s, a, p);
    hide Apply, Shapes, Copies, KnownClosed, CleanKept, YoungGuarded, WordsOk, RootsGuarded, EntriesOk;
    assert PcOk(s, s.procs[p]);
    if a.ForwardFetched? && a.p == p {
      StillReplicated(s, a, t);
    }
  }

  /** The step overwrites the pointer the scan has yet to look at. */
  predicate Covers(s: State, a: Action, id: Id)
    requires Enabled(s, a) && id in s.replicas
  {
    var c := s.replicas[id];
    || (a.StoreField? && s.procs[a.p].log[0].id == id && c.phase.Scanning? && c.phase.next == s.procs[a.p].log[0].index
        && (c.phase.scan.Stored? || c.phase.scan.Checking?))
    || (a.ScanSelf? && a.id == id && s.heap[id].fields[c.phase.next] == Primary(id))
  }

  lemma FromScan(s: State, b: Start, a: Action, id: Id, t: Id)
    requires Base(s, b) && Enabled(s, a) && ScanHolds(s, id, t) && !Covers(s, a, id)
    ensures t in Apply(s, a).replicas || ScanHolds(Apply(s, a), id, t)
  {
    CopyFrameAt(s, a, id);
    hide Apply, Shapes, Pcs, KnownClosed, CleanKept, YoungGuarded, WordsOk, RootsGuarded, EntriesOk, CopyAfter;
    assert CopyOk(s, id, s.replicas[id]);
    if a.ScanForward? && a.id == id {
      StillReplicated(s, a, t);
    } else {
      ScanKeeps(s, a, id, t);
    }
  }

  lemma ScanKeeps(s: State, a: Action, id: Id, t: Id)
    requires Enabled(s, a) && ScanHolds(s, id, t) && !Covers(s, a, id) && !(a.ScanForward? && a.id == id)
    requires id in s.heap && CopyOk(s, id, s.replicas[id])
    ensures InScan(CopyAfter(s, a, id)) == Primary(t)
  {
    hide ObjectTag, Writable;
  }

  // ---- one edge, one step ------------------------------------------------------------

  lemma HandGuards(t: State, id: Id, i: nat, p: nat, from: Id)
    requires IsEdge(t, id, i)
    requires EdgeTarget(t, id, i) in t.replicas || ReplayHolds(t, p, EdgeTarget(t, id, i))
      || ScanHolds(t, from, EdgeTarget(t, id, i))
    ensures EdgeGuarded(t, id, i)
  {}

  /** A guard that the step does not use up goes on guarding. */
  lemma OthersGuard(s: State, b: Start, a: Action, id: Id, i: nat)
    requires Base(s, b) && Enabled(s, a) && IsEdge(s, id, i) && LetGo(s, a) == Primary(EdgeTarget(s, id, i))
    requires Untouched(s, id, i) || OtherFirst(s, a, id, i) || OtherHand(s, a, EdgeTarget(s, id, i))
    ensures IsEdge(Apply(s, a), id, i) && EdgeGuarded(Apply(s, a), id, i)
  {
    SameSnap(s, a);
    hide Apply, Base, Enabled, KeepsFirst, ReplayHolds, ScanHolds, Untouched;
    var t := EdgeTarget(s, id, i);
    if Untouched(s, id, i) {
      FromUntouched(s, b, a, id, i);
    } else if OtherFirst(s, a, id, i) {
      var p, k :| KeepsFirst(s, p, k, id, i) && !((a.TestBack? || a.Fetch?) && a.p == p && k == 0);
      KeepsSome(s, p, k, id, i);
      FromFirst(s, b, a, p, k, id, i);
    } else if exists p :: ReplayHolds(s, p, t) {
      var p :| ReplayHolds(s, p, t);
      FromReplay(s, b, a, p, t);
      HandGuards(Apply(s, a), id, i, p, 0);
    } else if exists from :: ScanHolds(s, from, t) && !Overwrites(s, a, from) {
      var from :| ScanHolds(s, from, t) && !Overwrites(s, a, from);
      NotCovered(s, a, from, t);
      FromScan(s, b, a, from, t);
      HandGuards(Apply(s, a), id, i, 0, from);
    } else {
      FetchedNow(s, b, a, t);
      HandGuards(Apply(s, a), id, i, a.p, 0);
    }
  }

  lemma KeepsSome(s: State, p: nat, k: nat, id: Id, i: nat)
    requires KeepsFirst(s, p, k, id, i)
    ensures p < |s.procs|
  {}

  lemma NotCovered(s: State, a: Action, from: Id, t: Id)
    requires Enabled(s, a) && ScanHolds(s, from, t) && !Overwrites(s, a, from)
    ensures from in s.replicas && !Covers(s, a, from)
  {}

  lemma FetchedNow(s: State, b: Start, a: Action, t: Id)
    requires Base(s, b) && Enabled(s, a) && a.Fetch? && LetGo(s, a) == Primary(t)
    requires s.heap[s.procs[a.p].log[0].id].fields[s.procs[a.p].log[0].index] == Primary(t)
    ensures ReplayHolds(Apply(s, a), a.p, t)
  {
    ProcFrameAt(s, a, a.p);
    FetchMoves(s, b, a);
    hide Apply, Base;
  }

  lemma LetGoFirst(s: State, b: Start, a: Action, p: nat, k: nat, id: Id, i: nat)
    requires Base(s, b) && Enabled(s, a) && IsEdge(s, id, i) && KeepsFirst(s, p, k, id, i) && Spends(s, a, p, k)
    ensures LetGo(s, a) == Primary(EdgeTarget(s, id, i))
  {
    ProcFrameAt(s, a, p);
    hide Apply, Shapes, Copies, Pcs, KnownClosed, CleanKept, YoungGuarded, WordsOk, RootsGuarded;
    assert EntryOk(s, b, s.procs[p].log[0]);
  }

  lemma LetGoScan(s: State, a: Action, from: Id, t: Id)
    requires Enabled(s, a) && ScanHolds(s, from, t) && Covers(s, a, from)
    ensures LetGo(s, a) == Primary(t)
  {
    hide Apply;
  }

  lemma StepEdge(s: State, b: Start, a: Action, id: Id, i: nat)
    requires Base(s, b) && Enabled(s, a) && IsEdge(s, id, i) && EdgeGuarded(s, id, i) && !Opens(s, a, id, i)
    ensures IsEdge(Apply(s, a), id, i) && EdgeGuarded(Apply(s, a), id, i)
  {
    SameSnap(s, a);
    hide Apply, Base, Enabled, KeepsFirst, ReplayHolds, ScanHolds, Untouched, Spends, Covers, OtherFirst, OtherHand,
         LetGo;
    var t := EdgeTarget(s, id, i);
    if t in s.replicas {
      StillReplicated(s, a, t);
    } else if LetGo(s, a) == Primary(t) {
      OthersGuard(s, b, a, id, i);
    } else if Untouched(s, id, i) {
      FromUntouched(s, b, a, id, i);
    } else if LoggedFirst(s, id, i) {
      var p, k :| KeepsFirst(s, p, k, id, i);
      KeepsSome(s, p, k, id, i);
      if Spends(s, a, p, k) {
        LetGoFirst(s, b, a, p, k, id, i);
      }
      FromFirst(s, b, a, p, k, id, i);
    } else if exists p :: ReplayHolds(s, p, t) {
      var p :| ReplayHolds(s, p, t);
      FromReplay(s, b, a, p, t);
      HandGuards(Apply(s, a), id, i, p, 0);
    } else {
      var from :| ScanHolds(s, from, t);
      HoldsSome(s, from, t);
      if Covers(s, a, from) {
        LetGoScan(s, a, from, t);
      }
      FromScan(s, b, a, from, t);
      HandGuards(Apply(s, a), id, i, 0, from);
    }
  }

  lemma HoldsSome(s: State, from: Id, t: Id)
    requires ScanHolds(s, from, t)
    ensures from in s.replicas
  {}

  // ---- the converse ------------------------------------------------------------------

  /** A step that lets a pointer go makes no replica and writes no primary. */
  lemma LetGoQuiet(s: State, a: Action)
    requires Enabled(s, a) && LetGo(s, a).Primary?
    ensures Target(s, a) == Scalar(0) && HeapAfter(s, a) == s.heap && Apply(s, a).dirty == s.dirty
    ensures a.TestBack? || a.Fetch? || a.StoreField? || a.ScanSelf?
  {
    HeapFrame(s, a);
    hide Apply;
  }

  lemma NoMoreUntouched(s: State, a: Action, id: Id, i: nat)
    requires Enabled(s, a) && LetGo(s, a).Primary? && Untouched(Apply(s, a), id, i)
    ensures Untouched(s, id, i)
  {
    LetGoQuiet(s, a);
    HeapFrame(s, a);
    CopyFrameAt(s, a, id);
    hide Apply, LetGo, CopyAfter;
    if id in s.replicas {
      if !Unread(s.replicas[id], i) {
        ReadAfter(s, a, id, i);
      }
    }
  }

  lemma NoMoreFirst(s: State, a: Action, id: Id, i: nat)
    requires Enabled(s, a) && LetGo(s, a).Primary? && LoggedFirst(Apply(s, a), id, i)
    ensures OtherFirst(s, a, id, i)
  {
    LetGoQuiet(s, a);
    LogStep(s, a);
    var p, k :| KeepsFirst(Apply(s, a), p, k, id, i);
    LetGoPc(s, a, p);
    hide Apply, LetGo, PcAfter;
    assert KeepsFirst(s, p, Before(s, a, p, k), id, i);
  }

  lemma LetGoPc(s: State, a: Action, p: nat)
    requires Enabled(s, a) && LetGo(s, a).Primary? && p < |Apply(s, a).procs|
    ensures p < |s.procs|
    ensures if (a.TestBack? || a.Fetch?) && a.p == p then Pops(s, a, p) || PastLost(Apply(s, a).procs[p].pc)
            else Pops(s, a, p) || Apply(s, a).procs[p].pc == s.procs[p].pc
  {
    SameProcs(s, a);
    ProcFrameAt(s, a, p);
    hide Apply;
  }

  lemma NoMoreHand(s: State, b: Start, a: Action, t: Id)
    requires Base(s, b) && Enabled(s, a) && LetGo(s, a).Primary? && InHand(Apply(s, a), t)
    ensures OtherHand(s, a, t)
  {
    hide Apply, Base, Enabled, LetGo, ReplayHolds, ScanHolds, OtherHand;
    if exists p :: ReplayHolds(Apply(s, a), p, t) {
      var p :| ReplayHolds(Apply(s, a), p, t);
      HeldByReplay(s, a, p, t);
    } else {
      var from :| ScanHolds(Apply(s, a), from, t);
      HeldByScan(s, b, a, from, t);
    }
  }

  lemma HeldByReplay(s: State, a: Action, p: nat, t: Id)
    requires Enabled(s, a) && LetGo(s, a).Primary? && ReplayHolds(Apply(s, a), p, t)
    ensures OtherHand(s, a, t)
  {
    LetGoQuiet(s, a);
    SameProcs(s, a);
    ProcFrameAt(s, a, p);
    hide Apply, LetGo, ScanHolds, Overwrites;
    assert ReplayHolds(s, p, t) || (a.Fetch? && a.p == p);
  }

  lemma HeldByScan(s: State, b: Start, a: Action, from: Id, t: Id)
    requires Base(s, b) && Enabled(s, a) && LetGo(s, a).Primary? && ScanHolds(Apply(s, a), from, t)
    ensures OtherHand(s, a, t)
  {
    LetGoQuiet(s, a);
    CopyFrameAt(s, a, from);
    hide Apply, Base, Enabled, LetGo, ReplayHolds, CopyAfter, Overwrites;
    HeldBefore(s, b, a, from, t);
    assert ScanHolds(s, from, t) && !Overwrites(s, a, from);
  }

  lemma HeldBefore(s: State, b: Start, a: Action, from: Id, t: Id)
    requires Base(s, b) && Enabled(s, a) && LetGo(s, a).Primary?
    requires (a.TestBack? || a.Fetch? || a.StoreField? || a.ScanSelf?)
    requires from in s.replicas && InScan(CopyAfter(s, a, from)) == Primary(t)
    ensures ScanHolds(s, from, t) && !Overwrites(s, a, from)
  {
    hide Apply, Shapes, Copies, KnownClosed, CleanKept, YoungGuarded, WordsOk, RootsGuarded, EntriesOk, ObjectTag;
    if a.StoreField? {
      assert PcOk(s, s.procs[a.p]);
    }
  }

  lemma OpenedEdge(s: State, b: Start, a: Action, id: Id, i: nat)
    requires Base(s, b) && Opens(s, a, id, i)
    ensures IsEdge(Apply(s, a), id, i) && !EdgeGuarded(Apply(s, a), id, i)
  {
    SameSnap(s, a);
    LetGoQuiet(s, a);
    CopyFrameAt(s, a, LetGo(s, a).id);
    hide Apply, Base, Enabled, LetGo, InHand, LoggedFirst, Untouched, OtherFirst, OtherHand, CopyAfter;
    if Untouched(Apply(s, a), id, i) {
      NoMoreUntouched(s, a, id, i);
    }
    if LoggedFirst(Apply(s, a), id, i) {
      NoMoreFirst(s, a, id, i);
    }
    if InHand(Apply(s, a), EdgeTarget(s, id, i)) {
      NoMoreHand(s, b, a, EdgeTarget(s, id, i));
    }
  }

  // ---- an edge that is open ----------------------------------------------------------

  /** The step guards the edge anew: it replicates the target, loads or fetches a pointer
      to it, or logs the first write to the field. */
  predicate Mends(s: State, a: Action, id: Id, i: nat)
    requires Enabled(s, a) && IsEdge(s, id, i)
  {
    var t := Primary(EdgeTarget(s, id, i));
    || (Target(s, a) == t && t.id in s.heap)
    || (a.ScanLoad? && s.heap[a.id].fields[s.replicas[a.id].phase.next] == t)
    || (a.Fetch? && PcAfter(s, a, a.p) == Fetched(t))
    || (Writes(a, id, i) && (id, i) !in s.dirty)
  }

  lemma MendedEdge(s: State, b: Start, a: Action, id: Id, i: nat)
    requires Base(s, b) && Enabled(s, a) && IsEdge(s, id, i) && Mends(s, a, id, i)
    ensures IsEdge(Apply(s, a), id, i) && EdgeGuarded(Apply(s, a), id, i)
  {
    SameSnap(s, a);
    var t := EdgeTarget(s, id, i);
    if Target(s, a) == Primary(t) && t in s.heap {
      StillReplicated(s, a, t);
    } else if Writes(a, id, i) && (id, i) !in s.dirty {
      LogsFirst(s, a);
    } else if a.ScanLoad? {
      CopyFrameAt(s, a, a.id);
      hide Apply, Base;
      HandGuards(Apply(s, a), id, i, 0, a.id);
    } else {
      ProcFrameAt(s, a, a.p);
      hide Apply, Base;
      HandGuards(Apply(s, a), id, i, a.p, 0);
    }
  }

  lemma LogsFirst(s: State, a: Action)
    requires Enabled(s, a) && a.Write? && a.id in s.snap && (a.id, a.index) !in s.dirty
    ensures LoggedFirst(Apply(s, a), a.id, a.index)
  {
    ProcFrameAt(s, a, a.p);
    hide Apply;
    assert KeepsFirst(Apply(s, a), a.p, |s.procs[a.p].log|, a.id, a.index);
  }

  lemma WasUntouched(s: State, b: Start, a: Action, id: Id, i: nat)
    requires Base(s, b) && Enabled(s, a) && IsEdge(s, id, i) && Untouched(Apply(s, a), id, i)
    ensures Untouched(s, id, i)
  {
    EdgeInHeap(s, b, id, i);
    HeapFrame(s, a);
    CopyFrameAt(s, a, id);
    hide Apply, CopyAfter, Base;
    if id in s.replicas && !Unread(s.replicas[id], i) {
      ReadAfter(s, a, id, i);
    }
  }

  lemma WasFirst(s: State, a: Action, id: Id, i: nat)
    requires Enabled(s, a) && LoggedFirst(Apply(s, a), id, i) && !(Writes(a, id, i) && (id, i) !in s.dirty)
    ensures LoggedFirst(s, id, i)
  {
    LogStep(s, a);
    var p, k :| KeepsFirst(Apply(s, a), p, k, id, i);
    SameProcs(s, a);
    StillPast(s, a, p);
    hide Apply, PcAfter;
    assert KeepsFirst(s, p, Before(s, a, p, k), id, i);
  }

  lemma StillPast(s: State, a: Action, p: nat)
    requires Enabled(s, a) && p < |s.procs|
    ensures p < |Apply(s, a).procs|
    ensures PastLost(s.procs[p].pc) ==> Pops(s, a, p) || PastLost(Apply(s, a).procs[p].pc)
  {
    ProcFrameAt(s, a, p);
    hide Apply;
  }

  lemma WasInHand(s: State, b: Start, a: Action, id: Id, i: nat)
    requires Base(s, b) && Enabled(s, a) && IsEdge(s, id, i) && InHand(Apply(s, a), EdgeTarget(s, id, i))
    requires !Mends(s, a, id, i)
    ensures InHand(s, EdgeTarget(s, id, i))
  {
    hide Apply, Base, Enabled, ReplayHolds, ScanHolds, Mends;
    var t := EdgeTarget(s, id, i);
    if exists p :: ReplayHolds(Apply(s, a), p, t) {
      var p :| ReplayHolds(Apply(s, a), p, t);
      ReplayHeld(s, a, id, i, p);
    } else {
      var from :| ScanHolds(Apply(s, a), from, t);
      ScanHeld(s, b, a, id, i, from);
    }
  }

  lemma ReplayHeld(s: State, a: Action, id: Id, i: nat, p: nat)
    requires Enabled(s, a) && IsEdge(s, id, i) && ReplayHolds(Apply(s, a), p, EdgeTarget(s, id, i))
    requires !Mends(s, a, id, i)
    ensures ReplayHolds(s, p, EdgeTarget(s, id, i))
  {
    SameProcs(s, a);
    ProcFrameAt(s, a, p);
    hide Apply;
  }

  lemma ScanHeld(s: State, b: Start, a: Action, id: Id, i: nat, from: Id)
    requires Base(s, b) && Enabled(s, a) && IsEdge(s, id, i) && ScanHolds(Apply(s, a), from, EdgeTarget(s, id, i))
    requires !Mends(s, a, id, i)
    ensures ScanHolds(s, from, EdgeTarget(s, id, i))
  {
    CopyFrameAt(s, a, from);
    hide Apply, Base, Enabled, CopyAfter, Mends;
    NotLoaded(s, a, id, i);
    if from in s.replicas {
      HeldAlready(s, b, a, from, EdgeTarget(s, id, i));
    }
  }

  lemma NotLoaded(s: State, a: Action, id: Id, i: nat)
    requires Enabled(s, a) && IsEdge(s, id, i) && !Mends(s, a, id, i)
    ensures a.ScanLoad? ==> s.heap[a.id].fields[s.replicas[a.id].phase.next] != Primary(EdgeTarget(s, id, i))
  {}

  lemma HeldAlready(s: State, b: Start, a: Action, from: Id, t: Id)
    requires Base(s, b) && Enabled(s, a) && from in s.replicas && InScan(CopyAfter(s, a, from)) == Primary(t)
    requires a.ScanLoad? ==> s.heap[a.id].fields[s.replicas[a.id].phase.next] != Primary(t)
    ensures ScanHolds(s, from, t)
  {
    hide Shapes, Copies, KnownClosed, CleanKept, YoungGuarded, WordsOk, RootsGuarded, EntriesOk, ObjectTag;
    if a.StoreField? {
      assert PcOk(s, s.procs[a.p]);
    }
  }

  lemma StillOpen(s: State, b: Start, a: Action, id: Id, i: nat)
    requires Base(s, b) && Enabled(s, a) && IsEdge(s, id, i) && !EdgeGuarded(s, id, i) && !Mends(s, a, id, i)
    ensures IsEdge(Apply(s, a), id, i) && !EdgeGuarded(Apply(s, a), id, i)
  {
    SameSnap(s, a);
    EdgeInHeap(s, b, id, i);
    NotMade(s, a, id, i);
    hide Apply, Base, Enabled, Untouched, LoggedFirst, InHand;
    if Untouched(Apply(s, a), id, i) {
      WasUntouched(s, b, a, id, i);
    }
    if LoggedFirst(Apply(s, a), id, i) {
      FirstLogged(s, a, id, i);
    }
    if InHand(Apply(s, a), EdgeTarget(s, id, i)) {
      WasInHand(s, b, a, id, i);
    }
  }

  lemma NotMade(s: State, a: Action, id: Id, i: nat)
    requires Enabled(s, a) && IsEdge(s, id, i) && EdgeTarget(s, id, i) !in s.replicas && !Mends(s, a, id, i)
    ensures EdgeTarget(s, id, i) !in Apply(s, a).replicas
  {
    CopyFrameAt(s, a, EdgeTarget(s, id, i));
    hide Apply, CopyAfter;
  }

  lemma FirstLogged(s: State, a: Action, id: Id, i: nat)
    requires Enabled(s, a) && IsEdge(s, id, i) && LoggedFirst(Apply(s, a), id, i) && !Mends(s, a, id, i)
    ensures LoggedFirst(s, id, i)
  {
    hide Apply, LoggedFirst;
    WasFirst(s, a, id, i);
  }

  /** Exactly when a snapshot edge is open after a step: when the step opens it, or when
      it was and the step does not guard it anew. */
  lemma EdgeExact(s: State, b: Start, a: Action, id: Id, i: nat)
    requires Base(s, b) && Enabled(s, a) && IsEdge(s, id, i)
    ensures IsEdge(Apply(s, a), id, i)
    ensures !EdgeGuarded(Apply(s, a), id, i) <==>
            Opens(s, a, id, i) || (!EdgeGuarded(s, id, i) && !Mends(s, a, id, i))
  {
    SameSnap(s, a);
    hide Apply, Base, Enabled, EdgeGuarded, Opens, Mends;
    if Opens(s, a, id, i) {
      OpenedEdge(s, b, a, id, i);
    } else if EdgeGuarded(s, id, i) {
      StepEdge(s, b, a, id, i);
    } else if Mends(s, a, id, i) {
      MendedEdge(s, b, a, id, i);
    } else {
      StillOpen(s, b, a, id, i);
    }
  }

  /** The snapshot stays guarded exactly when the step loses no pointer of it. */
  lemma SnapshotExact(s: State, b: Start, a: Action)
    requires Base(s, b) && SnapGuarded(s) && Enabled(s, a)
    ensures SnapGuarded(Apply(s, a)) <==> !Loses(s, a)
  {
    SameSnap(s, a);
    hide Apply, Base, Enabled, EdgeGuarded, Opens;
    if Loses(s, a) {
      var id, i: nat :| Opens(s, a, id, i);
      OpensEdge(s, a, id, i);
      EdgeExact(s, b, a, id, i);
    } else {
      forall id, i: nat | IsEdge(Apply(s, a), id, i)
        ensures EdgeGuarded(Apply(s, a), id, i)
      {
        EdgeExact(s, b, a, id, i);
        assert EdgeGuarded(s, id, i);
        assert !Opens(s, a, id, i);
      }
    }
  }

  lemma OpensEdge(s: State, a: Action, id: Id, i: nat)
    requires Opens(s, a, id, i)
    ensures IsEdge(s, id, i)
  {}
}

/** Whether the collector can be switched off: from every state a run can reach it can,
    unless some replay is bound to die. */
module ReplicatingProgress {
  import opened Tags
  import opened Replicating
  import opened ReplicatingInv
  import opened ReplicatingFrames
  import opened ReplicatingBase
  import opened ReplicatingProof
  import opened Counting

  /** A replay that is dead, or holds the stall tag and can no longer find a backpointer. */
  predicate Doomed(s: State, proc: Proc) {
    match proc.pc
    case Dead => true
    case Tested(tag) => tag == STALL_TAG
    case Tagged(tag) =>
      && tag == STALL_TAG && proc.log != [] && proc.log[0].id in s.replicas
      && var c := s.replicas[proc.log[0].id]; c.fields != [] && c.fields[0] != Primary(proc.log[0].id)
    case _ => false
  }

  predicate HoldsStall(proc: Proc) {
    proc.pc.Dead? || ((proc.pc.Tagged? || proc.pc.Tested?) && proc.pc.tag == STALL_TAG)
  }

  // ---- the collector's own steps bring the end nearer -----------------------------------

  /** The steps by which work is done: none of a mutator's. */
  predicate Collects(a: Action) {
    IsReplay(a) || IsScan(a) || a.BeginRelease? || a.DoubleAllocate? || a.ForwardRoot?
  }

  ghost function ProcLeft(proc: Proc): nat {
    10 * |proc.log| + |proc.young| + (if proc.mode.Mutating? then 1 else 0) +
    match proc.pc
    case Idle => 7
    case Graying => 6
    case Forwarded => 6
    case Tagged(_) => 5
    case Tested(_) => 4
    case Fetched(_) => 3
    case Storing(_) => 2
    case Dead => 0
  }

  ghost function ScanLeft(n: nat, next: nat, scan: Scan): nat {
    if next >= n then 1
    else
      8 * (n - next) +
      match scan
      case Ready => 1
      case Loaded(_) => 0
      case Stored => -1
      case Checking => -2
      case Forwarding(_) => -3
      case Linking(_) => -4
  }

  ghost function CopyLeft(s: State, id: Id): nat {
    var n := if id in s.heap then |s.heap[id].fields| else 0;
    if id !in s.replicas then 8 * n + 4
    else
      match s.replicas[id].phase
      case Gray => 8 * n + 3
      case Scanning(next, scan) => ScanLeft(n, next, scan)
      case Black => 0
  }

  /** What is left to do, for replicas of the primaries listed. */
  ghost function AllLeft(s: State, ids: seq<Id>): nat {
    Sum(s.procs, ProcLeft) + Sum(ids, id => CopyLeft(s, id)) + |s.roots|
  }

  lemma NotScanned(s: State, a: Action, id: Id)
    requires Enabled(s, a) && id in s.replicas && !(IsScan(a) && a.id == id)
    ensures id in Apply(s, a).replicas && Apply(s, a).replicas[id].phase == s.replicas[id].phase
  {
    CopyFrameAt(s, a, id);
    hide Apply, Enabled, Target, IsNew;
  }

  lemma ScanFalls(s: State, a: Action)
    requires Enabled(s, a) && IsScan(a)
    ensures a.id in s.heap && a.id in s.replicas && a.id in Apply(s, a).replicas && Apply(s, a).heap == s.heap
    ensures CopyLeft(Apply(s, a), a.id) < CopyLeft(s, a.id)
  {
    HeapFrame(s, a);
    CopyFrameAt(s, a, a.id);
    hide Apply, ObjectTag, Image, Target, IsNew;
  }

  lemma CopyFalls(s: State, a: Action, id: Id)
    requires Enabled(s, a) && Collects(a)
    ensures CopyLeft(Apply(s, a), id) <= CopyLeft(s, id)
    ensures IsScan(a) && a.id == id ==> CopyLeft(Apply(s, a), id) < CopyLeft(s, id)
  {
    HeapFrame(s, a);
    if IsScan(a) && a.id == id {
      ScanFalls(s, a);
    } else if id in s.replicas {
      NotScanned(s, a, id);
      hide Apply, Enabled, ScanLeft;
    } else {
      CopyFrameAt(s, a, id);
      hide Apply, Enabled, ScanLeft, Target, IsNew, CopyAfter;
      assert id in Apply(s, a).replicas ==> Apply(s, a).replicas[id].phase == Gray by { hide *; NewGray(s, a, id); }
    }
  }

  lemma NewGray(s: State, a: Action, id: Id)
    requires Enabled(s, a) && id !in s.replicas
    ensures id in Apply(s, a).replicas ==> Apply(s, a).replicas[id].phase == Gray
  {
    CopyFrameAt(s, a, id);
    hide Apply, Enabled, Target, CopyAfter;
  }

  lemma ProcFalls(s: State, a: Action, p: nat)
    requires Enabled(s, a) && Collects(a) && p < |s.procs|
    ensures p < |Apply(s, a).procs| && ProcLeft(Apply(s, a).procs[p]) <= ProcLeft(s.procs[p])
    ensures !IsScan(a) && !a.ForwardRoot? && a.p == p ==> ProcLeft(Apply(s, a).procs[p]) < ProcLeft(s.procs[p])
  {
    ProcFrameAt(s, a, p);
    hide Apply, Writable, ObjectTag, Image, HasField, ScanAt;
    if IsReplay(a) && a.p == p {
      ReplayFalls(s, a);
    }
  }

  lemma ReplayFalls(s: State, a: Action)
    requires Enabled(s, a) && IsReplay(a)
    ensures a.p < |s.procs| && ProcLeft(ProcAfter(s, a, a.p)) < ProcLeft(s.procs[a.p])
  {
    hide Apply, Writable, ObjectTag, Image, HasField, ScanAt, Drops;
  }

  lemma ProcsFall(s: State, a: Action)
    requires Enabled(s, a) && Collects(a) && (!IsScan(a) && !a.ForwardRoot? ==> a.p < |s.procs|)
    ensures Sum(Apply(s, a).procs, ProcLeft) <= Sum(s.procs, ProcLeft)
    ensures !IsScan(a) && !a.ForwardRoot? ==> Sum(Apply(s, a).procs, ProcLeft) < Sum(s.procs, ProcLeft)
  {
    hide Apply, Enabled, ProcLeft;
    var t := Apply(s, a);
    SameProcs(s, a);
    forall p | 0 <= p < |s.procs|
      ensures ProcLeft(t.procs[p]) <= ProcLeft(s.procs[p])
    {
      ProcFalls(s, a, p);
    }
    var p := if !IsScan(a) && !a.ForwardRoot? then a.p else 0;
    if s.procs != [] {
      ProcFalls(s, a, p);
      hide Collects;
      SumFalls(s.procs, t.procs, ProcLeft, ProcLeft, p);
    }
  }

  lemma {:induction false} CopiesFall(s: State, a: Action, ids: seq<Id>)
    requires Enabled(s, a) && Collects(a) && (IsScan(a) ==> a.id in ids)
    ensures Sum(ids, id => CopyLeft(Apply(s, a), id)) <= Sum(ids, id => CopyLeft(s, id))
    ensures IsScan(a) ==> Sum(ids, id => CopyLeft(Apply(s, a), id)) < Sum(ids, id => CopyLeft(s, id))
  {
    var t := Apply(s, a);
    forall id
      ensures CopyLeft(t, id) <= CopyLeft(s, id)
      ensures IsScan(a) && a.id == id ==> CopyLeft(t, id) < CopyLeft(s, id)
    {
      CopyFalls(s, a, id);
    }
    hide Apply, Enabled, CopyLeft, Collects;
    if ids != [] {
      var j: nat :| j < |ids| && (IsScan(a) ==> ids[j] == a.id);
      SumFalls(ids, ids, id => CopyLeft(s, id), id => CopyLeft(t, id), j);
    }
  }

  /** Each of the collector's steps leaves less to do. */
  lemma AllFall(s: State, a: Action, ids: seq<Id>)
    requires Enabled(s, a) && Collects(a) && forall id | id in s.heap :: id in ids
    ensures AllLeft(Apply(s, a), ids) < AllLeft(s, ids)
  {
    ScansHeap(s, a);
    ProcsFall(s, a);
    CopiesFall(s, a, ids);
    HeldFrame(s, a);
    hide Apply, Enabled, ProcLeft, CopyLeft, Sum;
  }

  lemma ScansHeap(s: State, a: Action)
    requires Enabled(s, a) && Collects(a)
    ensures IsScan(a) ==> a.id in s.heap
    ensures !IsScan(a) && !a.ForwardRoot? ==> a.p < |s.procs|
    ensures a.ForwardRoot? ==> a.id in s.roots
  {}

  // ---- nobody is led to the stall tag -----------------------------------------------------

  ghost predicate NoStall(s: State) { forall p | 0 <= p < |s.procs| :: !HoldsStall(s.procs[p]) }

  ghost predicate NoneDoomed(s: State) { forall p | 0 <= p < |s.procs| :: !Doomed(s, s.procs[p]) }

  lemma NoStallDoom(s: State)
    requires NoStall(s)
    ensures NoneDoomed(s)
  {
    forall p | 0 <= p < |s.procs|
      ensures !Doomed(s, s.procs[p])
    {
      assert !HoldsStall(s.procs[p]);
    }
  }

  /** A step reads no stall tag, and leads nobody who has not to it, unless it reads the tag
      of an array under scan. */
  lemma StaysFree(s: State, b: Start, a: Action)
    requires Base(s, b) && NoStall(s) && Enabled(s, a)
    requires a.ReadTag? ==> a.p < |s.procs| && s.procs[a.p].log != [] && s.procs[a.p].log[0].id in s.replicas
                            && !s.replicas[s.procs[a.p].log[0].id].phase.Scanning?
    ensures NoStall(Apply(s, a))
  {
    SameProcs(s, a);
    forall p | 0 <= p < |s.procs|
      ensures !HoldsStall(Apply(s, a).procs[p])
    {
      assert !HoldsStall(s.procs[p]);
      ProcFrameAt(s, a, p);
      if IsReplay(a) && a.p == p {
        FreeReplay(s, b, a);
      }
      hide Apply, Enabled, Base, IsReplay;
    }
  }

  lemma FreeReplay(s: State, b: Start, a: Action)
    requires Enabled(s, a) && IsReplay(a) && a.p < |s.procs| && Base(s, b) && !HoldsStall(s.procs[a.p])
    requires a.ReadTag? ==> s.procs[a.p].log != [] && s.procs[a.p].log[0].id in s.replicas
                            && !s.replicas[s.procs[a.p].log[0].id].phase.Scanning?
    ensures a.p < |Apply(s, a).procs| && !HoldsStall(Apply(s, a).procs[a.p])
  {
    ProcFrameAt(s, a, a.p);
    if a.ReadTag? {
      TagReadExact(s, b, a.p);
      hide Apply, Enabled, Base;
    } else if a.Fetch? {
      FetchMoves(s, b, a);
      hide Apply, Base;
    } else {
      hide Apply, Base;
    }
  }

  // ---- the next step -----------------------------------------------------------------------

  ghost predicate NoScans(s: State) { forall id | id in s.replicas :: !s.replicas[id].phase.Scanning? }

  /** A scan under way can go on. */
  lemma ScanOn(s: State, b: Start, id: Id) returns (a: Action)
    requires Base(s, b) && id in s.replicas && s.replicas[id].phase.Scanning?
    ensures Enabled(s, a) && IsScan(a)
  {
    ScanThere(s, b, id);
    hide Base, Enabled;
    if s.replicas[id].phase.next == |s.heap[id].fields| {
      a := ScanEnd(id);
      EndScan(s, id);
    } else {
      a := MidScan(s, id);
    }
  }

  lemma EndScan(s: State, id: Id)
    requires id in s.replicas && id in s.heap && s.replicas[id].phase == Scanning(|s.heap[id].fields|, Ready)
    ensures Enabled(s, ScanEnd(id))
  {}

  lemma MidScan(s: State, id: Id) returns (a: Action)
    requires ScanAt(s, id)
    ensures Enabled(s, a) && IsScan(a)
  {
    var scan := s.replicas[id].phase.scan;
    hide ScanAt, HasField, Writable, IsMode, Replaying;
    match scan
    case Ready => a := ScanLoad(id);
    case Loaded(_) => a := ScanStore(id);
    case Stored => a := ScanSelf(id);
    case Checking => a := ScanCheck(id);
    case Forwarding(_) => a := ScanForward(id);
    case Linking(_) => a := ScanLink(id);
  }

  lemma ScanThere(s: State, b: Start, id: Id)
    requires Base(s, b) && id in s.replicas && s.replicas[id].phase.Scanning?
    ensures var c := s.replicas[id];
            && id in s.heap && |c.fields| == |s.heap[id].fields| && c.phase.next <= |c.fields|
            && (!c.phase.scan.Ready? ==> c.phase.next < |c.fields|)
  {
    hide Shapes, WordsOk, Pcs, EntriesOk, KnownClosed, CleanKept, YoungGuarded, RootsGuarded, ObjectTag, ScanOk, Begun,
         InField;
    assert CopyOk(s, id, s.replicas[id]);
  }

  /** A replay under way that is not dead can go on. */
  lemma ReplayOn(s: State, b: Start, p: nat) returns (a: Action)
    requires Base(s, b) && p < |s.procs| && s.procs[p].pc != Idle && s.procs[p].pc != Dead
    ensures Enabled(s, a) && IsReplay(a) && a.p == p && (a.TestBack? <==> s.procs[p].pc.Tagged?)
  {
    ReplayThere(s, b, p);
    hide Base, Enabled;
    a := ReplayNext(s, p);
  }

  lemma ReplayNext(s: State, p: nat) returns (a: Action)
    requires p < |s.procs| && s.procs[p].pc != Idle && s.procs[p].pc != Dead && s.procs[p].log != []
    requires s.procs[p].pc.Graying? || (Replaying(s, p) && ReplayFits(s, s.procs[p].log[0]))
    ensures Enabled(s, a) && IsReplay(a) && a.p == p && (a.TestBack? <==> s.procs[p].pc.Tagged?)
  {
    hide Writable, ScanAt, IsMode;
    match s.procs[p].pc
    case Graying => a := GrayLost(p);
    case Forwarded => a := ReadTag(p);
    case Tagged(_) => a := TestBack(p);
    case Tested(_) => a := Fetch(p);
    case Fetched(_) => a := ForwardFetched(p);
    case _ => a := StoreField(p);
  }

  /** The field of the entry is there, in the primary and in its replica. */
  predicate ReplayFits(s: State, e: Entry) {
    HasField(s.heap, e.id, e.index) && e.id in s.replicas && |s.replicas[e.id].fields| == |s.heap[e.id].fields|
  }

  lemma ReplayThere(s: State, b: Start, p: nat)
    requires Base(s, b) && p < |s.procs| && s.procs[p].pc != Idle
    ensures s.procs[p].log != []
    ensures !s.procs[p].pc.Graying? ==> Replaying(s, p) && ReplayFits(s, s.procs[p].log[0])
  {
    assert PcOk(s, s.procs[p]);
    assert EntryOk(s, b, s.procs[p].log[0]);
    var id := s.procs[p].log[0].id;
    if id in s.replicas {
      assert CopyOk(s, id, s.replicas[id]);
    }
    hide Shapes, WordsOk, Copies, Pcs, EntriesOk, KnownClosed, CleanKept, YoungGuarded, RootsGuarded;
  }

  /** Someone who holds the stall tag and is not bound to die finds a backpointer. */
  lemma DropStall(s: State, b: Start, p: nat)
    requires Base(s, b) && p < |s.procs| && HoldsStall(s.procs[p]) && NoneDoomed(s)
    ensures Enabled(s, TestBack(p)) && NoneDoomed(Apply(s, TestBack(p)))
  {
    assert !Doomed(s, s.procs[p]);
    ReplayThere(s, b, p);
    var a := ReplayOn(s, b, p);
    hide Base, Enabled;
    Dropped(s, p);
    hide Apply;
    var t := Apply(s, TestBack(p));
    forall q | 0 <= q < |t.procs|
      ensures !Doomed(t, t.procs[q])
    {
      if q != p {
        assert !Doomed(s, s.procs[q]);
      }
    }
  }

  lemma Dropped(s: State, p: nat)
    requires Enabled(s, TestBack(p)) && s.procs[p].pc.Tagged? && ReplayFits(s, s.procs[p].log[0])
    requires s.replicas[s.procs[p].log[0].id].fields[0] == Primary(s.procs[p].log[0].id)
    ensures var t := Apply(s, TestBack(p));
            t.replicas == s.replicas && |t.procs| == |s.procs| && t.procs == s.procs[p := t.procs[p]]
            && t.procs[p].pc == Idle
  {}

  /** With no scan and no replay under way: release, forward a root or begin a scan. */
  lemma IdleOn(s: State, b: Start) returns (a: Action)
    requires Base(s, b) && !Quiescent(s) && NoScans(s)
    requires forall p | 0 <= p < |s.procs| :: s.procs[p].pc == Idle
    ensures Enabled(s, a) && Collects(a) && !a.ReadTag?
  {
    hide Enabled, Base;
    if p: nat :| p < |s.procs| && (s.procs[p].young != [] || s.procs[p].log != []) {
      a := ReleaseOn(s, p);
    } else if id :| id in s.roots {
      a := ForwardRoot(id);
      RootOn(s, id);
    } else {
      var id :| id in s.replicas && !s.replicas[id].phase.Black?;
      a := ScanBegin(id);
      ScanStarts(s, b, id);
    }
  }

  lemma ReleaseOn(s: State, p: nat) returns (a: Action)
    requires p < |s.procs| && s.procs[p].pc == Idle && (s.procs[p].young != [] || s.procs[p].log != [])
    ensures Enabled(s, a) && Collects(a) && !a.ReadTag?
  {
    if s.procs[p].mode.Mutating? {
      a := BeginRelease(p);
    } else if s.procs[p].young != [] {
      a := DoubleAllocate(p);
    } else {
      a := ReadPrimary(p);
    }
  }

  lemma RootOn(s: State, id: Id)
    requires id in s.roots
    ensures Enabled(s, ForwardRoot(id))
  {}

  lemma ScanStarts(s: State, b: Start, id: Id)
    requires Base(s, b) && id in s.replicas && s.replicas[id].phase.Gray?
    ensures Enabled(s, ScanBegin(id))
  {
    assert id in s.heap by {
      hide Shapes, WordsOk, Pcs, EntriesOk, KnownClosed, CleanKept, YoungGuarded, RootsGuarded, CopyOk;
    }
    hide Base;
  }

  /** While nobody is bound to die, some step of the collector can be taken after which
      nobody is. */
  lemma NextStep(s: State, b: Start) returns (a: Action)
    requires Base(s, b) && NoneDoomed(s) && !Quiescent(s)
    ensures Enabled(s, a) && Collects(a) && NoneDoomed(Apply(s, a))
  {
    hide Base, Apply, Enabled, Doomed, Quiescent;
    if p: nat :| p < |s.procs| && HoldsStall(s.procs[p]) {
      assert !Doomed(s, s.procs[p]);
      DropStall(s, b, p);
      a := TestBack(p);
      return;
    }
    if id :| id in s.replicas && s.replicas[id].phase.Scanning? {
      a := ScanOn(s, b, id);
    } else if p: nat :| p < |s.procs| && s.procs[p].pc != Idle {
      assert !HoldsStall(s.procs[p]);
      ReplayThere(s, b, p);
      a := ReplayOn(s, b, p);
      assert a.ReadTag? ==> Replaying(s, p) by { ReadsReplica(s, a); }
    } else {
      a := IdleOn(s, b);
    }
    StaysFree(s, b, a);
    NoStallDoom(Apply(s, a));
  }

  lemma ReadsReplica(s: State, a: Action)
    requires Enabled(s, a)
    ensures a.ReadTag? ==> Replaying(s, a.p)
  {}

  /** From a state in which nobody is bound to die the collector comes to where it can be
      switched off, by its own steps. */
  lemma {:induction false} CanQuiesce(s: State, b: Start, ids: seq<Id>) returns (acts: seq<Action>)
    requires Base(s, b) && NoneDoomed(s) && forall id | id in s.heap :: id in ids
    ensures Runs(s, acts) && Quiescent(After(s, acts))
    decreases AllLeft(s, ids)
  {
    acts := [];
    if !Quiescent(s) {
      var a := NextStep(s, b);
      AllFall(s, a, ids);
      StepBase(s, b, a);
      SameHeap(s, a);
      hide Base, Apply, Enabled, Doomed, Quiescent, AllLeft, NoneDoomed;
      var rest := CanQuiesce(Apply(s, a), b, ids);
      acts := [a] + rest;
      assert acts[0] == a && acts[1..] == rest;
    }
  }

  lemma SameHeap(s: State, a: Action)
    requires Enabled(s, a) && Collects(a)
    ensures Apply(s, a).heap == s.heap
  {
    HeapFrame(s, a);
    hide Apply, Enabled;
  }

  // ---- who is doomed stays so ---------------------------------------------------------------

  lemma BackGone(s: State, b: Start, a: Action, id: Id)
    requires Base(s, b) && Enabled(s, a) && id in s.replicas
    requires s.replicas[id].fields != [] && s.replicas[id].fields[0] != Primary(id)
    ensures id in Apply(s, a).replicas
    ensures Apply(s, a).replicas[id].fields != [] && Apply(s, a).replicas[id].fields[0] != Primary(id)
  {
    CopyFrameAt(s, a, id);
    if IsScan(a) && a.id == id {
      assert CopyOk(s, id, s.replicas[id]);
      ScanKeepsGone(s, a);
    } else {
      StoreKeepsGone(s, b, a, id);
    }
    hide Base, Apply, CopyAfter, Target, IsNew, Enabled;
  }

  lemma StoreKeepsGone(s: State, b: Start, a: Action, id: Id)
    requires Base(s, b) && Enabled(s, a) && id in s.replicas && !(IsScan(a) && a.id == id)
    requires s.replicas[id].fields != [] && s.replicas[id].fields[0] != Primary(id)
    ensures CopyAfter(s, a, id).fields != [] && CopyAfter(s, a, id).fields[0] != Primary(id)
  {
    hide IsScan, Enabled, Base;
    if a.StoreField? {
      StoresNoPrimary(s, b, a);
      StoredCopy(s, a, id);
      hide CopyAfter;
    }
  }

  lemma StoredCopy(s: State, a: Action, id: Id)
    requires Enabled(s, a) && a.StoreField? && id in s.replicas
    ensures a.p < |s.procs| && s.procs[a.p].log != []
    ensures var c, e := s.replicas[id], s.procs[a.p].log[0];
            CopyAfter(s, a, id).fields
            == if e.id == id && e.index < |c.fields| then c.fields[e.index := s.procs[a.p].pc.word] else c.fields
  {}

  lemma StoresNoPrimary(s: State, b: Start, a: Action)
    requires Base(s, b) && Enabled(s, a) && a.StoreField?
    ensures s.procs[a.p].pc.Storing? && !s.procs[a.p].pc.word.Primary?
  {
    assert PcOk(s, s.procs[a.p]);
    hide Base, ObjectTag;
  }

  lemma ScanKeepsGone(s: State, a: Action)
    requires Enabled(s, a) && IsScan(a) && a.id in s.heap && CopyOk(s, a.id, s.replicas[a.id])
    requires s.replicas[a.id].fields != [] && s.replicas[a.id].fields[0] != Primary(a.id)
    ensures var c := CopyAfter(s, a, a.id); c.fields != [] && c.fields[0] != Primary(a.id)
  {
    hide Apply, ObjectTag, Writable;
  }

  lemma DoomedStays(s: State, b: Start, a: Action, p: nat)
    requires Base(s, b) && Enabled(s, a) && p < |s.procs| && Doomed(s, s.procs[p])
    ensures p < |Apply(s, a).procs| && Doomed(Apply(s, a), Apply(s, a).procs[p])
  {
    ProcFrameAt(s, a, p);
    ReplayThere(s, b, p);
    if s.procs[p].pc.Tagged? {
      BackGone(s, b, a, s.procs[p].log[0].id);
    }
    if IsReplay(a) && a.p == p {
      DoomedMoves(s, b, a);
    } else {
      hide Apply, IsReplay, Base, HasField, Drops;
      assert PcAfter(s, a, p) == s.procs[p].pc;
      LogFront(s, a, p);
    }
  }

  lemma LogFront(s: State, a: Action, p: nat)
    requires Enabled(s, a) && p < |s.procs| && !(IsReplay(a) && a.p == p) && s.procs[p].log != []
    ensures LogAfter(s, a, p) != [] && LogAfter(s, a, p)[0] == s.procs[p].log[0]
  {}

  /** The only step of a replay that holds a tag, or has tested for the backpointer. */
  lemma OnlyStep(s: State, a: Action)
    requires Enabled(s, a) && IsReplay(a) && a.p < |s.procs|
    ensures s.procs[a.p].pc.Tested? ==> a.Fetch?
    ensures s.procs[a.p].pc.Tagged? ==> a.TestBack?
    ensures !s.procs[a.p].pc.Dead?
  {}

  lemma TestFails(s: State, a: Action)
    requires Enabled(s, a) && a.TestBack? && Doomed(s, s.procs[a.p]) && s.procs[a.p].pc.Tagged?
    ensures PcAfter(s, a, a.p) == Tested(STALL_TAG)
  {}

  lemma FetchDies(s: State, b: Start, a: Action)
    requires Base(s, b) && Enabled(s, a) && a.Fetch? && s.procs[a.p].pc.tag == STALL_TAG
    ensures PcAfter(s, a, a.p) == Dead
  {
    FetchMoves(s, b, a);
    hide Base, AfterFetch;
  }

  lemma DoomedMoves(s: State, b: Start, a: Action)
    requires Base(s, b) && Enabled(s, a) && IsReplay(a) && a.p < |s.procs| && Doomed(s, s.procs[a.p])
    ensures a.p < |Apply(s, a).procs| && Doomed(Apply(s, a), Apply(s, a).procs[a.p])
  {
    OnlyStep(s, a);
    if a.Fetch? {
      FetchDies(s, b, a);
    } else {
      TestFails(s, a);
    }
    ProcFrameAt(s, a, a.p);
    hide Base, Apply, Enabled, PcAfter, LogAfter, YoungAfter, ModeAfter, IsReplay;
  }

  lemma {:induction false} DoomedRun(s: State, b: Start, acts: seq<Action>, p: nat)
    requires Base(s, b) && Runs(s, acts) && p < |s.procs| && Doomed(s, s.procs[p])
    ensures p < |After(s, acts).procs| && Doomed(After(s, acts), After(s, acts).procs[p])
    decreases acts
  {
    if acts != [] {
      DoomedStays(s, b, acts[0], p);
      StepBase(s, b, acts[0]);
      hide Base, Apply, Enabled, Doomed;
      DoomedRun(Apply(s, acts[0]), b, acts[1..], p);
    }
  }

  /** After any run the collector can still be brought to where it may be switched off, if
      and only if no replay is dead, or holds the stall tag of an array that no longer
      points back. */
  lemma {:induction false} QuiesceExactly(s: State, acts: seq<Action>)
    requires Init(s) && Runs(s, acts)
    ensures var t := After(s, acts);
            (exists more :: Runs(t, more) && Quiescent(After(t, more)))
            <==> forall p | 0 <= p < |t.procs| :: !Doomed(t, t.procs[p])
  {
    var live := LiveExists(s);
    var b := Start(s.roots, live);
    InitInv(s, b);
    RunBase(s, b, acts);
    var t := After(s, acts);
    hide Base, Inv, Apply, Doomed, Init;
    if forall p | 0 <= p < |t.procs| :: !Doomed(t, t.procs[p]) {
      var ids := IdsOf(t.heap.Keys);
      assert NoneDoomed(t);
      var more := CanQuiesce(t, b, ids);
    }
    if more :| Runs(t, more) && Quiescent(After(t, more)) {
      forall p | 0 <= p < |t.procs|
        ensures !Doomed(t, t.procs[p])
      {
        if Doomed(t, t.procs[p]) {
          DoomedRun(t, b, more, p);
          QuietNotDoomed(After(t, more), p);
        }
      }
    }
  }

  lemma QuietNotDoomed(s: State, p: nat)
    requires Quiescent(s) && p < |s.procs|
    ensures !Doomed(s, s.procs[p])
  {}

  lemma IdsOf(ids: set<Id>) returns (all: seq<Id>)
    ensures forall id | id in ids :: id in all
    decreases ids
  {
    all := [];
    if ids != {} {
      var id :| id in ids;
      var rest := IdsOf(ids - {id});
      all := [id] + rest;
    }
  }
}

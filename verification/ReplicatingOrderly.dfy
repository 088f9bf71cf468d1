/** Schedules of the replicating collector that are careful by their order alone. */
module ReplicatingOrderly {
  import opened Replicating
  import opened ReplicatingInv
  import opened ReplicatingFrames
  import opened ReplicatingBase
  import opened ReplicatingAgree
  import opened ReplicatingSnapshot
  import opened ReplicatingProof

  /** A write to one of the array's fields awaits its replay. */
  predicate Awaits(s: State, id: Id) {
    exists p, k | 0 <= p < |s.procs| && 0 <= k < |s.procs[p].log| :: s.procs[p].log[k].id == id
  }

  predicate FieldAwaits(s: State, id: Id, i: nat) {
    exists p, k | 0 <= p < |s.procs| && 0 <= k < |s.procs[p].log| ::
      s.procs[p].log[k].id == id && s.procs[p].log[k].index == i
  }

  /** The order asked for: no array is written while its replica is gray or under scan,
      no field while an earlier write to it awaits its replay, and no array gets its
      replica while a write to it does. */
  ghost predicate InOrder(s: State, a: Action)
    requires Enabled(s, a)
  {
    && (a.Write? ==>
          (a.id in s.replicas ==> s.replicas[a.id].phase.Black?) && !FieldAwaits(s, a.id, a.index))
    && (forall id | IsNew(s, a, id) :: !Awaits(s, id))
  }

  ghost predicate Orderly(s: State, acts: seq<Action>)
    requires Runs(s, acts)
    decreases acts
  {
    acts == [] || (InOrder(s, acts[0]) && Orderly(Apply(s, acts[0]), acts[1..]))
  }

  // ---- what an orderly run keeps -----------------------------------------------------

  /** Written arrays have no replica or a finished one; then the value lost by a first
      write has a replica. */
  predicate EntryCalm(s: State, e: Entry) {
    e.id in s.replicas ==> s.replicas[e.id].phase.Black? && (e.first && e.lost.Primary? ==> e.lost.id in s.replicas)
  }

  predicate PcCalm(s: State, proc: Proc) {
    proc.log != [] && HasField(s.heap, proc.log[0].id, proc.log[0].index) ==>
      var w := s.heap[proc.log[0].id].fields[proc.log[0].index];
      match proc.pc
      case Fetched(v) => v == w
      case Storing(v) => v == Image(w)
      case _ => true
  }

  /** What the scan holds is what the primary holds. */
  ghost predicate ScanMatches(s: State, id: Id, c: Copy) {
    c.phase.Scanning? && HasField(s.heap, id, c.phase.next) && c.phase.next < |c.fields| ==>
      var w := s.heap[id].fields[c.phase.next];
      match c.phase.scan
      case Loaded(v) => v == w
      case Stored => c.fields[c.phase.next] == w
      case Checking => c.fields[c.phase.next] == w
      case Forwarding(v) => v == w
      case _ => true
  }

  /** Besides, the targets of clean fields the scan is done with have replicas. */
  ghost predicate CopyCalm(s: State, id: Id, c: Copy) {
    && ScanMatches(s, id, c)
    && (forall i: nat | IsEdge(s, id, i) && (id, i) !in s.dirty && Done(c, i) :: EdgeTarget(s, id, i) in s.replicas)
  }

  /** The scan has dealt with the field. */
  predicate Done(c: Copy, i: nat) {
    c.phase.Black? || (c.phase.Scanning? && (i < c.phase.next || (i == c.phase.next && c.phase.scan.Linking?)))
  }

  ghost predicate Entries(s: State) {
    && (forall p, k | 0 <= p < |s.procs| && 0 <= k < |s.procs[p].log| :: EntryCalm(s, s.procs[p].log[k]))
    && (forall p, k, q, l | 0 <= p < |s.procs| && 0 <= k < |s.procs[p].log|
                            && 0 <= q < |s.procs| && 0 <= l < |s.procs[q].log| ::
          SameField(s.procs[p].log[k], s.procs[q].log[l]) ==> p == q && k == l)
  }

  predicate SameField(e: Entry, f: Entry) { e.id == f.id && e.index == f.index }

  ghost predicate Calm(s: State) {
    && Entries(s)
    && (forall p | 0 <= p < |s.procs| :: PcCalm(s, s.procs[p]))
    && (forall id | id in s.replicas :: CopyCalm(s, id, s.replicas[id]))
  }

  // ---- a calm step is careful --------------------------------------------------------

  lemma NoDrop(s: State, b: Start, a: Action)
    requires Base(s, b) && Calm(s) && Enabled(s, a)
    ensures !Drops(s, a)
  {
    hide Shapes, KnownClosed, CleanKept, YoungGuarded, WordsOk, RootsGuarded, Pcs, CopyCalm, PcCalm, ObjectTag;
    if a.TestBack? {
      var e := s.procs[a.p].log[0];
      assert EntryCalm(s, e);
      assert CopyOk(s, e.id, s.replicas[e.id]);
    }
  }

  lemma NothingLost(s: State, b: Start, a: Action, id: Id, i: nat)
    requires Base(s, b) && Calm(s) && Enabled(s, a)
    ensures !Opens(s, a, id, i)
  {
    NoDrop(s, b, a);
    hide Apply, Base, PcCalm, IsEdge, Untouched, OtherFirst, OtherHand, Drops;
    if a.Fetch? || a.StoreField? {
      assert EntryCalm(s, s.procs[a.p].log[0]);
    } else if a.ScanSelf? {
      assert CopyCalm(s, a.id, s.replicas[a.id]);
    }
  }

  lemma NothingSpoilt(s: State, b: Start, a: Action)
    requires Base(s, b) && Calm(s) && Enabled(s, a)
    ensures !Spoils(s, a)
  {
    NoDrop(s, b, a);
    hide Apply, Base, Drops, CopyCalm, Unread;
    if a.StoreField? {
      assert EntryCalm(s, s.procs[a.p].log[0]);
      assert PcCalm(s, s.procs[a.p]);
    }
  }

  // ---- an orderly step keeps calm ----------------------------------------------------

  lemma SameHeapField(s: State, a: Action, id: Id, i: nat)
    requires Enabled(s, a) && HasField(s.heap, id, i) && !Writes(a, id, i)
    ensures HasField(Apply(s, a).heap, id, i) && Apply(s, a).heap[id].fields[i] == s.heap[id].fields[i]
  {
    FieldStays(s, a, id, i);
  }

  lemma StillThere(s: State, a: Action, id: Id)
    requires Enabled(s, a) && id in s.replicas
    ensures id in Apply(s, a).replicas && (s.replicas[id].phase.Black? ==> Apply(s, a).replicas[id].phase.Black?)
  {
    CopyFrameAt(s, a, id);
    hide Apply;
  }

  /** An entry that stays in the list stays calm. */
  lemma EntryStays(s: State, a: Action, p: nat, k: nat)
    requires Calm(s) && Enabled(s, a) && InOrder(s, a) && p < |s.procs| && k < |s.procs[p].log|
    ensures EntryCalm(Apply(s, a), s.procs[p].log[k])
  {
    var e := s.procs[p].log[k];
    assert EntryCalm(s, e) && Awaits(s, e.id);
    CopyFrameAt(s, a, e.id);
    hide Apply, CopyCalm, PcCalm, CopyAfter, Target;
    if e.id in s.replicas {
      StillThere(s, a, e.id);
      if e.first && e.lost.Primary? {
        StillThere(s, a, e.lost.id);
      }
    }
  }

  lemma EntryBegins(s: State, b: Start, a: Action)
    requires Base(s, b) && Calm(s) && Enabled(s, a) && InOrder(s, a) && a.Write?
    ensures EntryCalm(Apply(s, a), NewEntry(s, a))
  {
    CopyFrameAt(s, a, a.id);
    var e := NewEntry(s, a);
    if e.id in s.replicas {
      assert CopyCalm(s, e.id, s.replicas[e.id]);
      CleanField(s, b, e.id, e.index);
      if e.first && e.lost.Primary? {
        StillThere(s, a, e.lost.id);
      }
    }
    hide Apply;
  }

  /** A clean field of a snapshot object that holds a pointer is a snapshot edge. */
  lemma CleanField(s: State, b: Start, id: Id, i: nat)
    requires Base(s, b) && HasField(s.heap, id, i)
    ensures id in s.snap && (id, i) !in s.dirty && s.heap[id].fields[i].Primary? ==>
              IsEdge(s, id, i) && s.snap[id].fields[i] == s.heap[id].fields[i]
  {
    hide Copies, Pcs, EntriesOk, KnownClosed, YoungGuarded, RootsGuarded, IsLive;
    assert WordOk(s, id, s.heap[id].fields[i]);
  }

  lemma StepEntriesCalm(s: State, b: Start, a: Action)
    requires Base(s, b) && Calm(s) && Enabled(s, a) && InOrder(s, a)
    ensures Entries(Apply(s, a))
  {
    LogStep(s, a);
    hide Apply, Base, Enabled, EntryCalm, CopyCalm, PcCalm, InOrder, NewEntry, Before, SameField;
    var t := Apply(s, a);
    forall p, k | 0 <= p < |t.procs| && 0 <= k < |t.procs[p].log|
      ensures EntryCalm(t, t.procs[p].log[k])
    {
      if IsNewest(s, a, p, k) {
        EntryBegins(s, b, a);
      } else {
        EntryStays(s, a, p, Before(s, a, p, k));
      }
    }
    forall p, k, q, l | 0 <= p < |t.procs| && 0 <= k < |t.procs[p].log| && 0 <= q < |t.procs|
      && 0 <= l < |t.procs[q].log|
      ensures SameField(t.procs[p].log[k], t.procs[q].log[l]) ==> p == q && k == l
    {
      FieldOnce(s, a, p, k, q, l);
    }
  }

  lemma FieldOnce(s: State, a: Action, p: nat, k: nat, q: nat, l: nat)
    requires Calm(s) && Enabled(s, a) && InOrder(s, a)
    requires var t := Apply(s, a); p < |t.procs| && k < |t.procs[p].log| && q < |t.procs| && l < |t.procs[q].log|
    ensures var t := Apply(s, a); SameField(t.procs[p].log[k], t.procs[q].log[l]) ==> p == q && k == l
  {
    LogStep(s, a);
    hide Apply, Enabled, EntryCalm, CopyCalm, PcCalm, Pops, NewEntry, SameField, InOrder;
    var i, j := Before(s, a, p, k), Before(s, a, q, l);
    if IsNewest(s, a, p, k) {
      if !IsNewest(s, a, q, l) {
        OtherField(s, a, q, j);
      }
    } else if IsNewest(s, a, q, l) {
      OtherField(s, a, p, i);
    } else {
      assert SameField(s.procs[p].log[i], s.procs[q].log[j]) ==> p == q && i == j;
    }
  }

  lemma OtherField(s: State, a: Action, p: nat, k: nat)
    requires Enabled(s, a) && a.Write? && InOrder(s, a) && p < |s.procs| && k < |s.procs[p].log|
    ensures !SameField(s.procs[p].log[k], NewEntry(s, a)) && !SameField(NewEntry(s, a), s.procs[p].log[k])
  {}

  lemma StepPcCalm(s: State, b: Start, a: Action, p: nat)
    requires Base(s, b) && Calm(s) && Enabled(s, a) && InOrder(s, a) && p < |s.procs|
    ensures p < |Apply(s, a).procs| && PcCalm(Apply(s, a), Apply(s, a).procs[p])
  {
    SameProcs(s, a);
    ProcFrameAt(s, a, p);
    hide Apply, Base, Enabled, Calm, PcCalm, ProcAfter, InOrder;
    if IsReplay(a) && a.p == p {
      PcCalmMoves(s, b, a);
    } else {
      PcCalmStays(s, b, a, p);
    }
  }

  lemma PcCalmMoves(s: State, b: Start, a: Action)
    requires Base(s, b) && Calm(s) && Enabled(s, a) && IsReplay(a)
    ensures PcCalm(Apply(s, a), ProcAfter(s, a, a.p))
  {
    HeapFrame(s, a);
    assert PcCalm(s, s.procs[a.p]);
    hide Apply, Base, Calm, YoungAfter, ModeAfter, PcAfter, Pops;
    if Pops(s, a, a.p) {
      PoppedIdle(s, a);
    } else {
      MovesCalm(s, b, a);
    }
  }

  /** What the replay fetches or is about to store is the primary's present word. */
  lemma MovesCalm(s: State, b: Start, a: Action)
    requires Base(s, b) && Enabled(s, a) && IsReplay(a) && !Pops(s, a, a.p) && PcCalm(s, s.procs[a.p])
    ensures PcCalm(s, s.procs[a.p].(pc := PcAfter(s, a, a.p)))
  {
    hide Apply, Base;
    if a.Fetch? {
      FetchMoves(s, b, a);
    }
  }

  lemma PcCalmStays(s: State, b: Start, a: Action, p: nat)
    requires Base(s, b) && Calm(s) && Enabled(s, a) && InOrder(s, a) && p < |s.procs| && !(IsReplay(a) && a.p == p)
    ensures PcCalm(Apply(s, a), ProcAfter(s, a, p))
  {
    assert PcCalm(s, s.procs[p]) && PcOk(s, s.procs[p]);
    hide Apply, Base, CopyCalm, EntryCalm, PcOk;
    if s.procs[p].pc != Idle {
      LogStays(s, a, p);
      var e := s.procs[p].log[0];
      EntryThereFor(s, b, p);
      assert FieldAwaits(s, e.id, e.index);
      assert !Writes(a, e.id, e.index);
      SameHeapField(s, a, e.id, e.index);
    } else {
      NotReplaying(s, a, p);
    }
  }

  lemma EntryThereFor(s: State, b: Start, p: nat)
    requires Base(s, b) && p < |s.procs| && s.procs[p].log != []
    ensures HasField(s.heap, s.procs[p].log[0].id, s.procs[p].log[0].index)
  {
    hide Shapes, Copies, Pcs, KnownClosed, CleanKept, YoungGuarded, WordsOk, RootsGuarded;
    assert EntryOk(s, b, s.procs[p].log[0]);
  }

  lemma StepCopyCalm(s: State, b: Start, a: Action, id: Id)
    requires Base(s, b) && Calm(s) && Enabled(s, a) && InOrder(s, a) && id in s.replicas
    ensures id in Apply(s, a).replicas && CopyCalm(Apply(s, a), id, Apply(s, a).replicas[id])
  {
    CopyFrameAt(s, a, id);
    SameSnap(s, a);
    hide Apply, Base, Enabled, CopyAfter, CopyCalm, InOrder, Done;
    ScanCalm(s, b, a, id);
    forall i: nat | IsEdge(s, id, i) && (id, i) !in Apply(s, a).dirty && Done(CopyAfter(s, a, id), i)
      ensures EdgeTarget(s, id, i) in Apply(s, a).replicas
    {
      DoneCalm(s, b, a, id, i);
    }
    assert CopyCalm(Apply(s, a), id, CopyAfter(s, a, id)) by { BothCalm(s, a, id); }
  }

  lemma BothCalm(s: State, a: Action, id: Id)
    requires Enabled(s, a) && id in s.replicas && ScanMatches(Apply(s, a), id, CopyAfter(s, a, id))
    requires Apply(s, a).snap == s.snap
    requires forall i: nat | IsEdge(s, id, i) && (id, i) !in Apply(s, a).dirty && Done(CopyAfter(s, a, id), i) ::
               EdgeTarget(s, id, i) in Apply(s, a).replicas
    ensures CopyCalm(Apply(s, a), id, CopyAfter(s, a, id))
  {
    hide Apply, CopyAfter, Done, ScanMatches;
  }

  lemma ScanCalm(s: State, b: Start, a: Action, id: Id)
    requires Base(s, b) && Calm(s) && Enabled(s, a) && InOrder(s, a) && id in s.replicas
    ensures ScanMatches(Apply(s, a), id, CopyAfter(s, a, id))
  {
    hide Apply, Base, Enabled, CopyAfter, Entries, PcCalm, ScanMatches, InOrder;
    assert CopyCalm(s, id, s.replicas[id]);
    LengthsAgree(s, b, id);
    ScanGoesOn(s, a, id);
    if a.Write? && a.id == id {
      WrittenBlack(s, a);
      StillBlack(s, a, id);
      BlackMatches(Apply(s, a), id, CopyAfter(s, a, id));
    } else {
      SameObject(s, a, id);
      MatchesStays(s, Apply(s, a), id, CopyAfter(s, a, id));
    }
  }

  lemma WrittenBlack(s: State, a: Action)
    requires Enabled(s, a) && InOrder(s, a) && a.Write? && a.id in s.replicas
    ensures s.replicas[a.id].phase.Black?
  {}

  lemma BlackMatches(t: State, id: Id, c: Copy)
    requires c.phase.Black?
    ensures ScanMatches(t, id, c)
  {}

  lemma SameObject(s: State, a: Action, id: Id)
    requires Enabled(s, a) && id in s.heap && !(a.Write? && a.id == id)
    ensures id in Apply(s, a).heap && Apply(s, a).heap[id] == s.heap[id]
  {
    HeapFrame(s, a);
    hide Apply;
  }

  lemma MatchesStays(s: State, t: State, id: Id, c: Copy)
    requires ScanMatches(s, id, c) && id in s.heap && id in t.heap && t.heap[id] == s.heap[id]
    ensures ScanMatches(t, id, c)
  {}

  lemma StillBlack(s: State, a: Action, id: Id)
    requires Enabled(s, a) && id in s.replicas && s.replicas[id].phase.Black?
    ensures CopyAfter(s, a, id).phase.Black?
  {}

  /** With the primaries as they were, the scan holds what they hold. */
  lemma ScanGoesOn(s: State, a: Action, id: Id)
    requires Calm(s) && Enabled(s, a) && id in s.replicas && ScanMatches(s, id, s.replicas[id])
    ensures ScanMatches(s, id, CopyAfter(s, a, id))
  {
    hide ObjectTag, Writable, CopyCalm, PcCalm;
    if a.StoreField? {
      assert EntryCalm(s, s.procs[a.p].log[0]);
    }
  }

  lemma DoneCalm(s: State, b: Start, a: Action, id: Id, i: nat)
    requires Base(s, b) && Calm(s) && Enabled(s, a) && InOrder(s, a) && id in s.replicas
    requires IsEdge(s, id, i) && (id, i) !in Apply(s, a).dirty && Done(CopyAfter(s, a, id), i)
    ensures EdgeTarget(s, id, i) in Apply(s, a).replicas
  {
    HeapFrame(s, a);
    hide Apply, Base, Enabled, CopyAfter, Done, InOrder, PcCalm, EntryCalm;
    assert CopyCalm(s, id, s.replicas[id]);
    if Done(s.replicas[id], i) {
      StillReplicated(s, a, EdgeTarget(s, id, i));
    } else {
      NewlyDone(s, b, a, id, i);
      StillReplicated(s, a, EdgeTarget(s, id, i));
    }
  }

  /** The step that finishes with a clean edge replicates its target, or finds the array
      pointing at itself. */
  lemma NewlyDone(s: State, b: Start, a: Action, id: Id, i: nat)
    requires Base(s, b) && Enabled(s, a) && id in s.replicas && ScanMatches(s, id, s.replicas[id])
    requires IsEdge(s, id, i) && (id, i) !in s.dirty && !Done(s.replicas[id], i) && Done(CopyAfter(s, a, id), i)
    ensures var t := EdgeTarget(s, id, i); t in s.replicas || (Target(s, a) == Primary(t) && t in s.heap)
  {
    EdgeInHeap(s, b, id, i);
    CleanHeap(s, b, id, i);
    LengthsAgree(s, b, id);
    DoneByScan(s, a, id, i);
    hide Base, Enabled, CopyAfter, Done;
  }

  /** The steps that finish with a field. */
  lemma DoneByScan(s: State, a: Action, id: Id, i: nat)
    requires Enabled(s, a) && id in s.replicas && HasField(s.heap, id, i) && s.heap[id].traced
    requires !Done(s.replicas[id], i) && Done(CopyAfter(s, a, id), i)
    ensures s.replicas[id].phase.Scanning? && s.replicas[id].phase.next == i
    ensures || (a == ScanForward(id) && s.replicas[id].phase.scan.Forwarding?)
            || (a == ScanSelf(id) && s.heap[id].fields[i] == Primary(id))
            || (a == ScanCheck(id) && s.replicas[id].phase.scan.Checking? && i < |s.replicas[id].fields|
                && !s.replicas[id].fields[i].Primary?)
  {
    hide ObjectTag, Writable;
  }

  lemma CleanHeap(s: State, b: Start, id: Id, i: nat)
    requires Base(s, b) && IsEdge(s, id, i) && (id, i) !in s.dirty && HasField(s.heap, id, i)
    ensures s.heap[id].fields[i] == Primary(EdgeTarget(s, id, i))
  {
    hide Copies, Pcs, EntriesOk, KnownClosed, YoungGuarded, RootsGuarded, WordsOk, IsLive;
  }

  lemma LengthsAgree(s: State, b: Start, id: Id)
    requires Base(s, b) && id in s.replicas
    ensures id in s.heap && |s.replicas[id].fields| == |s.heap[id].fields|
  {
    hide Shapes, Pcs, EntriesOk, KnownClosed, CleanKept, YoungGuarded, WordsOk, RootsGuarded;
    assert CopyOk(s, id, s.replicas[id]);
  }

  lemma NewCalm(s: State, a: Action, id: Id)
    requires Enabled(s, a) && IsNew(s, a, id)
    ensures CopyCalm(Apply(s, a), id, NewCopy(id, s.heap[id]))
  {
    hide Apply;
  }

  lemma StepCalm(s: State, b: Start, a: Action)
    requires Base(s, b) && Calm(s) && Enabled(s, a) && InOrder(s, a)
    ensures Calm(Apply(s, a))
  {
    SameProcs(s, a);
    CopyFrame(s, a);
    StepEntriesCalm(s, b, a);
    hide Apply, Base, Enabled, Entries, PcCalm, CopyCalm, InOrder, CopyAfter, NewCopy, IsNew;
    forall p | 0 <= p < |Apply(s, a).procs|
      ensures PcCalm(Apply(s, a), Apply(s, a).procs[p])
    {
      StepPcCalm(s, b, a, p);
    }
    forall id | id in Apply(s, a).replicas
      ensures CopyCalm(Apply(s, a), id, Apply(s, a).replicas[id])
    {
      if id in s.replicas {
        StepCopyCalm(s, b, a, id);
      } else {
        NewCalm(s, a, id);
      }
    }
  }

  lemma {:induction false} OrderlyIsCareful(s: State, b: Start, acts: seq<Action>)
    requires Base(s, b) && Calm(s) && Runs(s, acts) && Orderly(s, acts)
    ensures Careful(s, acts)
    decreases acts
  {
    hide Base, Calm, Apply, Enabled, InOrder, Opens, Spoils;
    if acts != [] {
      forall id, i: nat
        ensures !Opens(s, acts[0], id, i)
      {
        NothingLost(s, b, acts[0], id, i);
      }
      NothingSpoilt(s, b, acts[0]);
      StepBase(s, b, acts[0]);
      StepCalm(s, b, acts[0]);
      OrderlyIsCareful(Apply(s, acts[0]), b, acts[1..]);
    }
  }

  /** Over every orderly run, in any interleaving otherwise, a quiescent state is one in
      which the collector may flip. */
  lemma {:induction false} OrderlyRunFlips(s: State, acts: seq<Action>)
    requires Init(s) && Runs(s, acts) && Orderly(s, acts)
    requires Quiescent(After(s, acts))
    ensures FlipSafe(After(s, acts))
  {
    var live := LiveExists(s);
    var b := Start(s.roots, live);
    InitInv(s, b);
    assert Calm(s);
    hide Base, Calm, Runs, After, Orderly, Careful, Quiescent, FlipSafe;
    OrderlyIsCareful(s, b, acts);
    CarefulRunFlips(s, acts);
  }
}

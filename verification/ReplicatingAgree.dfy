/** When the fields of replicas agree with their primaries: exactly which steps
    spoil a field, and which heal it. */
module ReplicatingAgree {
  import opened Replicating
  import opened ReplicatingInv
  import opened ReplicatingFrames
  import opened ReplicatingBase

  predicate Writes(a: Action, id: Id, i: nat) { a.Write? && a.id == id && a.index == i }

  lemma FieldStays(s: State, a: Action, id: Id, i: nat)
    requires Enabled(s, a) && HasField(s.heap, id, i)
    ensures HasField(Apply(s, a).heap, id, i)
    ensures !Writes(a, id, i) ==> Apply(s, a).heap[id].fields[i] == s.heap[id].fields[i]
  {
    HeapFrame(s, a);
    hide Apply;
  }

  // ---- what replays owe --------------------------------------------------------------

  lemma NewDue(s: State, a: Action)
    requires Enabled(s, a) && a.Write?
    ensures HasField(Apply(s, a).heap, a.id, a.index) && Owed(Apply(s, a), a.id, a.index)
  {
    FieldStays(s, a, a.id, a.index);
    ProcFrameAt(s, a, a.p);
    hide Apply;
    assert Due(Apply(s, a), a.p, |s.procs[a.p].log|, a.id, a.index);
  }

  /** What the step does to one entry: where it is now, and how far its replay. */
  lemma EntryStep(s: State, a: Action, p: nat, k: nat)
    requires Enabled(s, a) && p < |s.procs| && k < |s.procs[p].log| && !(Pops(s, a, p) && k == 0)
    ensures var t, l := Apply(s, a), if Pops(s, a, p) then k - 1 else k;
            && |t.procs| == |s.procs| && l < |t.procs[p].log| && t.procs[p].log[l] == s.procs[p].log[k]
            && t.procs[p].pc == PcAfter(s, a, p)
  {
    hide Apply, PcAfter, Enabled, YoungAfter, ModeAfter, NewEntry, Pops;
    ProcFrameAt(s, a, p);
    PopsSome(s, a, p);
  }

  /** An entry still due stays due until it is done with. */
  lemma DueAfter(s: State, b: Start, a: Action, p: nat, k: nat, id: Id, i: nat)
    requires Base(s, b) && Enabled(s, a) && HasField(s.heap, id, i) && id in s.replicas
    requires Due(s, p, k, id, i) && !(Pops(s, a, p) && k == 0)
    ensures HasField(Apply(s, a).heap, id, i) && Owed(Apply(s, a), id, i)
  {
    hide Apply, Enabled, Base, Due;
    FieldStays(s, a, id, i);
    if Writes(a, id, i) {
      NewDue(s, a);
    } else {
      DueThen(s, b, a, p, k, id, i);
    }
  }

  lemma DueThen(s: State, b: Start, a: Action, p: nat, k: nat, id: Id, i: nat)
    requires Base(s, b) && Enabled(s, a) && HasField(s.heap, id, i) && id in s.replicas && !Writes(a, id, i)
    requires Due(s, p, k, id, i) && !(Pops(s, a, p) && k == 0)
    ensures HasField(Apply(s, a).heap, id, i)
    ensures Due(Apply(s, a), p, if Pops(s, a, p) then k - 1 else k, id, i)
  {
    hide Apply, Enabled, Base, Pops, PcAfter;
    FieldStays(s, a, id, i);
    EntryStep(s, a, p, k);
    if IsReplay(a) && a.p == p {
      if Pops(s, a, p) {
        PoppedIdle(s, a);
      } else if k == 0 {
        DueMoves(s, b, a, id, i);
      }
    } else {
      NotReplaying(s, a, p);
    }
  }

  lemma PoppedIdle(s: State, a: Action)
    requires Enabled(s, a) && IsReplay(a) && Pops(s, a, a.p)
    ensures PcAfter(s, a, a.p) == Idle
  {}

  lemma DueMoves(s: State, b: Start, a: Action, id: Id, i: nat)
    requires Base(s, b) && Enabled(s, a) && IsReplay(a) && !Pops(s, a, a.p) && HasField(s.heap, id, i)
    requires id in s.replicas
    requires Due(s, a.p, 0, id, i)
    ensures match PcAfter(s, a, a.p)
            case Graying => false
            case Fetched(w) => w == s.heap[id].fields[i]
            case Storing(w) => w == Image(s.heap[id].fields[i])
            case _ => true
  {
    hide Apply, Base;
    if a.Fetch? {
      FetchMoves(s, b, a);
    }
  }

  /** An entry due after a step that does not write the field was due before. */
  lemma DueBefore(s: State, b: Start, a: Action, p: nat, k: nat, id: Id, i: nat)
    requires Base(s, b) && Enabled(s, a) && HasField(s.heap, id, i) && !Writes(a, id, i)
    requires HasField(Apply(s, a).heap, id, i) && Due(Apply(s, a), p, k, id, i)
    ensures p < |s.procs| && Due(s, p, Before(s, a, p, k), id, i)
  {
    hide Apply, Base, Enabled, Pops, ModeAfter, YoungAfter, LogAfter, PcAfter;
    FieldStays(s, a, id, i);
    LogStep(s, a);
    ProcFrameAt(s, a, p);
    if IsReplay(a) && a.p == p && !Pops(s, a, p) && k == 0 {
      WasDue(s, b, a, id, i);
    }
    NotReplaying(s, a, p);
  }

  lemma NotReplaying(s: State, a: Action, p: nat)
    requires Enabled(s, a) && p < |s.procs|
    ensures !(IsReplay(a) && a.p == p) ==> PcAfter(s, a, p) == s.procs[p].pc && !Pops(s, a, p)
  {}

  lemma WasDue(s: State, b: Start, a: Action, id: Id, i: nat)
    requires Base(s, b) && Enabled(s, a) && IsReplay(a) && !Pops(s, a, a.p) && HasField(s.heap, id, i)
    requires s.procs[a.p].log[0].id == id && s.procs[a.p].log[0].index == i
    requires match PcAfter(s, a, a.p)
             case Graying => false
             case Fetched(w) => w == s.heap[id].fields[i]
             case Storing(w) => w == Image(s.heap[id].fields[i])
             case _ => true
    ensures Due(s, a.p, 0, id, i)
  {
    hide Apply, Shapes, EntriesOk, KnownClosed, CleanKept, YoungGuarded, Copies;
    if a.ForwardFetched? {
      assert PcOk(s, s.procs[a.p]);
      assert WordOk(s, id, s.heap[id].fields[i]);
    }
  }

  // ---- what the scan delivers --------------------------------------------------------

  /** The step stores in the field from a write-list entry. */
  predicate StoresIn(s: State, a: Action, id: Id, i: nat)
    requires Enabled(s, a)
  {
    a.StoreField? && s.procs[a.p].log[0].id == id && s.procs[a.p].log[0].index == i
  }

  /** The scan finds that the primary's field points at the primary itself. */
  predicate FindsSelf(s: State, a: Action, id: Id, i: nat)
    requires Enabled(s, a)
  {
    a.ScanSelf? && a.id == id && s.replicas[id].phase.next == i && s.heap[id].fields[i] == Primary(id)
  }

  lemma UnreadAfter(s: State, a: Action, id: Id, i: nat)
    requires Enabled(s, a) && id in s.replicas && HasField(s.heap, id, i) && i < |s.replicas[id].fields|
    requires Unread(s.replicas[id], i)
    ensures var c := CopyAfter(s, a, id);
            i < |c.fields| && (Unread(c, i) || Outcome(c, i) == Image(s.heap[id].fields[i]))
  {
    hide ObjectTag, Writable;
  }

  lemma ReadAfter(s: State, a: Action, id: Id, i: nat)
    requires Enabled(s, a) && id in s.replicas && !Unread(s.replicas[id], i)
    ensures !Unread(CopyAfter(s, a, id), i)
  {
    hide ObjectTag, Writable;
  }

  /** A field once loaded is on its way to what it will be, unless it is stored in
      from elsewhere or the scan finds the primary pointing at itself. */
  lemma OutcomeStays(s: State, a: Action, id: Id, i: nat)
    requires Enabled(s, a) && id in s.replicas && HasField(s.heap, id, i) && i < |s.replicas[id].fields|
    requires CopyOk(s, id, s.replicas[id]) && !Unread(s.replicas[id], i) && !StoresIn(s, a, id, i)
    ensures var c := CopyAfter(s, a, id);
            && i < |c.fields|
            && Outcome(c, i) == if FindsSelf(s, a, id, i) then Replica(id) else Outcome(s.replicas[id], i)
  {
    hide ObjectTag, Writable;
  }

  lemma OutcomeStored(s: State, b: Start, a: Action)
    requires Base(s, b) && Enabled(s, a) && a.StoreField?
    requires !Unread(s.replicas[s.procs[a.p].log[0].id], s.procs[a.p].log[0].index)
    ensures var e := s.procs[a.p].log[0];
            e.index < |CopyAfter(s, a, e.id).fields| && Outcome(CopyAfter(s, a, e.id), e.index) == OutcomeAfter(s, a)
  {
    hide Shapes, EntriesOk, KnownClosed, CleanKept, YoungGuarded, Copies, WordsOk, ObjectTag;
    assert PcOk(s, s.procs[a.p]);
  }

  // ---- one field, one step -----------------------------------------------------------

  /** The step is done with an entry for the field, having dropped it or stored. */
  predicate Closes(s: State, a: Action, id: Id, i: nat)
    requires Enabled(s, a)
  {
    (Drops(s, a) || a.StoreField?) && s.procs[a.p].log[0].id == id && s.procs[a.p].log[0].index == i
  }

  predicate IsField(s: State, id: Id, i: nat) {
    id in s.replicas && HasField(s.heap, id, i) && i < |s.replicas[id].fields|
  }

  lemma IsFieldAfter(s: State, b: Start, a: Action, id: Id, i: nat)
    requires Base(s, b) && Enabled(s, a) && IsField(s, id, i)
    ensures IsField(Apply(s, a), id, i) && Apply(s, a).replicas[id] == CopyAfter(s, a, id)
  {
    FieldStays(s, a, id, i);
    CopyFrameAt(s, a, id);
    CopyAfterOk(s, b, a, id);
    hide Apply, CopyAfter;
  }

  /** A field that agrees still agrees after a step that closes no entry for it. */
  lemma OpenField(s: State, b: Start, a: Action, id: Id, i: nat)
    requires Base(s, b) && Enabled(s, a) && IsField(s, id, i) && FieldAgrees(s, id, i) && !Closes(s, a, id, i)
    ensures IsField(Apply(s, a), id, i) && FieldAgrees(Apply(s, a), id, i)
  {
    IsFieldAfter(s, b, a, id, i);
    FieldStays(s, a, id, i);
    hide Apply, CopyAfter, Unread, Outcome;
    if Writes(a, id, i) {
      NewDue(s, a);
    } else if Unread(s.replicas[id], i) {
      UnreadAfter(s, a, id, i);
    } else if Owed(s, id, i) {
      var p, k :| Due(s, p, k, id, i);
      NotPopped(s, a, p, k, id, i);
      DueAfter(s, b, a, p, k, id, i);
    } else {
      assert CopyOk(s, id, s.replicas[id]);
      OutcomeStays(s, a, id, i);
    }
  }

  lemma NotPopped(s: State, a: Action, p: nat, k: nat, id: Id, i: nat)
    requires Enabled(s, a) && IsField(s, id, i) && Due(s, p, k, id, i) && !Closes(s, a, id, i)
    ensures !(Pops(s, a, p) && k == 0)
  {}

  /** The step closes an entry: the field agrees afterwards unless it is spoilt. */
  lemma ClosedField(s: State, b: Start, a: Action, id: Id, i: nat)
    requires Base(s, b) && Enabled(s, a) && IsField(s, id, i) && Closes(s, a, id, i) && !Spoils(s, a)
    ensures IsField(Apply(s, a), id, i) && FieldAgrees(Apply(s, a), id, i)
  {
    IsFieldAfter(s, b, a, id, i);
    FieldStays(s, a, id, i);
    hide Apply, CopyAfter, Outcome, OutcomeAfter;
    if Unread(s.replicas[id], i) {
      UnreadAfter(s, a, id, i);
    } else if OutcomeAfter(s, a) == Image(s.heap[id].fields[i]) {
      OutcomeClosed(s, b, a, id, i);
    } else {
      hide Unread;
      var p, k :| Due(s, p, k, id, i) && !(p == a.p && k == 0);
      DueAfter(s, b, a, p, k, id, i);
    }
  }

  lemma OutcomeClosed(s: State, b: Start, a: Action, id: Id, i: nat)
    requires Base(s, b) && Enabled(s, a) && IsField(s, id, i) && Closes(s, a, id, i) && !Unread(s.replicas[id], i)
    ensures i < |CopyAfter(s, a, id).fields| && Outcome(CopyAfter(s, a, id), i) == OutcomeAfter(s, a)
  {
    hide Unread, Outcome;
    if a.StoreField? {
      OutcomeStored(s, b, a);
    }
  }

  /** A new replica is gray: its fields have yet to be loaded. */
  lemma NewField(s: State, a: Action, id: Id, i: nat)
    requires Enabled(s, a) && id !in s.replicas && IsField(Apply(s, a), id, i)
    ensures FieldAgrees(Apply(s, a), id, i)
  {
    CopyFrameAt(s, a, id);
    hide Apply;
  }

  /** A field that does not agree goes on disagreeing, unless it is written or the
      scan finds the primary pointing at itself. */
  lemma StillSpoilt(s: State, b: Start, a: Action, id: Id, i: nat)
    requires Base(s, b) && Enabled(s, a) && IsField(s, id, i) && !FieldAgrees(s, id, i)
    requires !Writes(a, id, i) && !FindsSelf(s, a, id, i) && !Closes(s, a, id, i)
    ensures IsField(Apply(s, a), id, i) && !FieldAgrees(Apply(s, a), id, i)
  {
    IsFieldAfter(s, b, a, id, i);
    FieldStays(s, a, id, i);
    hide Apply, CopyAfter, Unread, Outcome;
    ReadAfter(s, a, id, i);
    assert CopyOk(s, id, s.replicas[id]);
    OutcomeStays(s, a, id, i);
    forall p, k | Due(Apply(s, a), p, k, id, i)
      ensures false
    {
      DueBefore(s, b, a, p, k, id, i);
    }
  }

  /** A step that spoils a field leaves it disagreeing. */
  lemma SpoiltField(s: State, b: Start, a: Action)
    requires Base(s, b) && Spoils(s, a)
    ensures var e := s.procs[a.p].log[0];
            IsField(Apply(s, a), e.id, e.index) && !FieldAgrees(Apply(s, a), e.id, e.index)
  {
    var e := s.procs[a.p].log[0];
    IsFieldAfter(s, b, a, e.id, e.index);
    FieldStays(s, a, e.id, e.index);
    NothingOwed(s, b, a);
    hide Apply, CopyAfter, Unread, Outcome, OutcomeAfter, Base, Owed;
    ReadAfter(s, a, e.id, e.index);
    OutcomeClosed(s, b, a, e.id, e.index);
  }

  lemma NothingOwed(s: State, b: Start, a: Action)
    requires Base(s, b) && Spoils(s, a)
    ensures var e := s.procs[a.p].log[0];
            HasField(Apply(s, a).heap, e.id, e.index) && !Owed(Apply(s, a), e.id, e.index)
  {
    hide Apply, CopyAfter, Unread, Outcome, OutcomeAfter, Base, Due;
    var e := s.procs[a.p].log[0];
    FieldStays(s, a, e.id, e.index);
    forall p, k | Due(Apply(s, a), p, k, e.id, e.index)
      ensures false
    {
      DueBefore(s, b, a, p, k, e.id, e.index);
    }
  }

  /** Closing an entry for a field that did not agree leaves it so, or does as a
      spoiling step does. */
  lemma ClosedSpoilt(s: State, b: Start, a: Action, id: Id, i: nat)
    requires Base(s, b) && Enabled(s, a) && IsField(s, id, i) && Closes(s, a, id, i) && !FieldAgrees(s, id, i)
    ensures Spoils(s, a)
  {
    hide Apply, CopyAfter, Base;
    assert !Due(s, a.p, 0, id, i);
  }

  /** Exactly when a field disagrees after a step: when the step spoils it, or when it
      did before and the step does not heal it. */
  lemma FieldExact(s: State, b: Start, a: Action, id: Id, i: nat)
    requires Base(s, b) && Enabled(s, a) && IsField(s, id, i)
    ensures IsField(Apply(s, a), id, i)
    ensures !FieldAgrees(Apply(s, a), id, i) <==>
            || (Spoils(s, a) && Closes(s, a, id, i))
            || (!FieldAgrees(s, id, i) && !Writes(a, id, i) && !FindsSelf(s, a, id, i))
  {
    IsFieldAfter(s, b, a, id, i);
    hide Apply, Base, FieldAgrees, Spoils, Closes;
    if Closes(s, a, id, i) {
      ClosedExact(s, b, a, id, i);
    } else if FieldAgrees(s, id, i) {
      OpenField(s, b, a, id, i);
    } else if Writes(a, id, i) || FindsSelf(s, a, id, i) {
      Healed(s, b, a, id, i);
    } else {
      StillSpoilt(s, b, a, id, i);
    }
  }

  lemma ClosedExact(s: State, b: Start, a: Action, id: Id, i: nat)
    requires Base(s, b) && Enabled(s, a) && IsField(s, id, i) && Closes(s, a, id, i)
    ensures IsField(Apply(s, a), id, i) && !Writes(a, id, i) && !FindsSelf(s, a, id, i)
    ensures !FieldAgrees(Apply(s, a), id, i) <==> Spoils(s, a)
    ensures !FieldAgrees(s, id, i) ==> Spoils(s, a)
  {
    IsFieldAfter(s, b, a, id, i);
    hide Apply, Base, FieldAgrees, Spoils;
    if !FieldAgrees(s, id, i) {
      ClosedSpoilt(s, b, a, id, i);
    }
    if Spoils(s, a) {
      SpoiltField(s, b, a);
    } else {
      ClosedField(s, b, a, id, i);
    }
  }

  lemma Healed(s: State, b: Start, a: Action, id: Id, i: nat)
    requires Base(s, b) && Enabled(s, a) && IsField(s, id, i) && (Writes(a, id, i) || FindsSelf(s, a, id, i))
    ensures IsField(Apply(s, a), id, i) && FieldAgrees(Apply(s, a), id, i)
  {
    IsFieldAfter(s, b, a, id, i);
    FieldStays(s, a, id, i);
    hide Apply, CopyAfter;
    if Writes(a, id, i) {
      NewDue(s, a);
    } else {
      assert CopyOk(s, id, s.replicas[id]);
      OutcomeStays(s, a, id, i);
    }
  }

  /** The fields of all replicas go on agreeing exactly when the step spoils none. */
  lemma AgreementExact(s: State, b: Start, a: Action)
    requires Base(s, b) && Agreement(s) && Enabled(s, a)
    ensures Agreement(Apply(s, a)) <==> !Spoils(s, a)
  {
    hide Apply, Base, FieldAgrees, Spoils;
    var t := Apply(s, a);
    if Spoils(s, a) {
      SpoilsAgreement(s, b, a);
    } else {
      forall id, i: nat | IsField(t, id, i)
        ensures FieldAgrees(t, id, i)
      {
        if id in s.replicas {
          WasField(s, b, a, id, i);
          FieldExact(s, b, a, id, i);
        } else {
          NewField(s, a, id, i);
        }
      }
    }
  }

  lemma SpoilsAgreement(s: State, b: Start, a: Action)
    requires Base(s, b) && Spoils(s, a)
    ensures !Agreement(Apply(s, a))
  {
    hide Apply, Base, FieldAgrees;
    SpoiltField(s, b, a);
    Disagrees(Apply(s, a), s.procs[a.p].log[0].id, s.procs[a.p].log[0].index);
  }

  lemma Disagrees(t: State, id: Id, i: nat)
    requires IsField(t, id, i) && !FieldAgrees(t, id, i)
    ensures !Agreement(t)
  {}

  lemma WasField(s: State, b: Start, a: Action, id: Id, i: nat)
    requires Base(s, b) && Enabled(s, a) && id in s.replicas && IsField(Apply(s, a), id, i)
    ensures IsField(s, id, i)
  {
    StepGrown(s, a);
    CopyFrameAt(s, a, id);
    CopyAfterOk(s, b, a, id);
    hide Apply, CopyAfter;
    assert CopyOk(s, id, s.replicas[id]);
  }

  /** A dropped write spoils its field just when it was to field 0, the scan has
      loaded another word from there, and no other replay is due. */
  lemma DropSpoils(s: State, b: Start, a: Action)
    requires Base(s, b) && Drops(s, a)
    ensures Spoils(s, a) <==>
            var e := s.procs[a.p].log[0];
            var c := s.replicas[e.id];
            && e.index == 0 && c.phase.Scanning? && c.phase.next == 0 && !c.phase.scan.Ready?
            && Outcome(c, 0) != Image(s.heap[e.id].fields[0])
            && !exists p, k {:trigger Due(s, p, k, e.id, 0)} :: Due(s, p, k, e.id, 0) && !(p == a.p && k == 0)
  {
    hide Shapes, KnownClosed, CleanKept, YoungGuarded, WordsOk, RootsGuarded, Due;
    var e := s.procs[a.p].log[0];
    assert EntryOk(s, b, e);
    assert CopyOk(s, e.id, s.replicas[e.id]);
  }
}

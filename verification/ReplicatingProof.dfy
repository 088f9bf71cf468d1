/** Runs of the replicating collector: what careful ones establish at the flip, and
    what any run can be told by. */
module ReplicatingProof {
  import opened Tags
  import opened Replicating
  import opened ReplicatingInv
  import opened ReplicatingFrames
  import opened ReplicatingBase
  import opened ReplicatingAgree
  import opened ReplicatingSnapshot

  /** Every step that neither loses a snapshot pointer nor spoils a field keeps the
      invariant; the others do not. */
  lemma StepInv(s: State, b: Start, a: Action)
    requires Inv(s, b) && Enabled(s, a)
    ensures Inv(Apply(s, a), b) <==> !Loses(s, a) && !Spoils(s, a)
  {
    hide Base, SnapGuarded, Agreement, Loses, Spoils, Apply, Enabled;
    StepBase(s, b, a);
    SnapshotExact(s, b, a);
    AgreementExact(s, b, a);
  }

  /** Once everything live at the snapshot edges is replicated, so is everything
      live in the snapshot. */
  lemma SnapshotReplicated(s: State, b: Start)
    requires Base(s, b) && SnapGuarded(s) && Quiescent(s)
    ensures b.live <= s.replicas.Keys
  {
    hide EntriesOk, KnownClosed, YoungGuarded, Copies, Pcs, WordsOk, CleanKept;
    var done := set id | id in b.live && id in s.replicas;
    forall id, i: nat | id in done && IsEdge(s, id, i)
      ensures s.snap[id].fields[i].id in done
    {
      assert EdgeGuarded(s, id, i);
    }
    assert Closed(s.snap, b.roots, done);
  }

  /** A field that fails: its replica is there, and disagrees. */
  ghost predicate Spoilt(s: State, id: Id, i: nat) {
    IsField(s, id, i) && !FieldAgrees(s, id, i)
  }

  /** At a quiescent point a field agrees exactly when its replica holds the image. */
  lemma QuietField(s: State, b: Start, id: Id, i: nat)
    requires Base(s, b) && Quiescent(s) && IsField(s, id, i)
    ensures FieldAgrees(s, id, i) <==> s.replicas[id].fields[i] == Image(s.heap[id].fields[i])
  {
    hide Base;
  }

  /** At a quiescent point of any run, careful or not, the collector can flip exactly
      when every live primary has a replica none of whose fields is spoilt. */
  lemma FlipExact(s: State, b: Start)
    requires Base(s, b) && Quiescent(s)
    ensures FlipSafe(s) <==>
            forall live | IsLive(s.heap, s.held, live) ::
              live <= s.replicas.Keys && forall id, i: nat | id in live && HasField(s.heap, id, i) :: !Spoilt(s, id, i)
  {
    hide Shapes, EntriesOk, KnownClosed, YoungGuarded, Pcs, WordsOk, CleanKept, IsLive, Quiescent, FieldAgrees,
         RootsGuarded;
    forall live | IsLive(s.heap, s.held, live) && live <= s.replicas.Keys
      ensures (forall id | id in live && id in s.heap ::
                 && |s.replicas[id].fields| == |s.heap[id].fields|
                 && forall i: nat | i < |s.heap[id].fields| :: s.replicas[id].fields[i] == Image(s.heap[id].fields[i]))
              <==> forall id, i: nat | id in live && HasField(s.heap, id, i) :: !Spoilt(s, id, i)
    {
      forall id, i: nat | id in live && HasField(s.heap, id, i)
        ensures |s.replicas[id].fields| == |s.heap[id].fields|
        ensures Spoilt(s, id, i) <==> s.replicas[id].fields[i] != Image(s.heap[id].fields[i])
      {
        assert CopyOk(s, id, s.replicas[id]);
        QuietField(s, b, id, i);
      }
      forall id | id in live && id in s.heap
        ensures |s.replicas[id].fields| == |s.heap[id].fields|
      {
        assert CopyOk(s, id, s.replicas[id]);
      }
    }
  }

  lemma EverythingKnown(s: State, b: Start)
    requires Inv(s, b) && Quiescent(s)
    ensures forall live | IsLive(s.heap, s.held, live) :: live <= s.replicas.Keys
  {
    SnapshotReplicated(s, b);
    hide EntriesOk, Copies, Pcs, WordsOk, CleanKept, Agreement, SnapGuarded, RootsGuarded;
    assert Known(s, b) <= s.replicas.Keys;
    assert Closed(s.heap, s.held, Known(s, b));
  }

  /** At a quiescent point of a run that kept the invariant, the collector can flip:
      every live primary has a replica that agrees with it field by field. */
  lemma FlipIsSafe(s: State, b: Start)
    requires Inv(s, b) && Quiescent(s)
    ensures FlipSafe(s)
  {
    hide Base, IsLive, Quiescent, FlipSafe, FieldAgrees, SnapGuarded;
    EverythingKnown(s, b);
    FlipExact(s, b);
  }

  lemma InitInv(s: State, b: Start)
    requires Init(s) && b.roots == s.roots && IsLive(s.heap, s.held, b.live)
    ensures Inv(s, b)
  {
    assert Closed(s.heap, s.held, s.heap.Keys);
  }

  lemma LiveExists(s: State) returns (live: set<Id>)
    requires Init(s)
    ensures IsLive(s.heap, s.held, live)
  {
    assert Closed(s.heap, s.held, s.heap.Keys);
    live := set id | id in s.heap && forall ids | Closed(s.heap, s.held, ids) :: id in ids;
  }

  // ---- runs --------------------------------------------------------------------------

  /** A run: each action is enabled where it is taken. */
  predicate Runs(s: State, acts: seq<Action>)
    decreases acts
  {
    acts == [] || (Enabled(s, acts[0]) && Runs(Apply(s, acts[0]), acts[1..]))
  }

  function After(s: State, acts: seq<Action>): State
    requires Runs(s, acts)
    decreases acts
  {
    if acts == [] then s else After(Apply(s, acts[0]), acts[1..])
  }

  /** A run in which no step loses a snapshot pointer or spoils a field. */
  ghost predicate Careful(s: State, acts: seq<Action>)
    requires Runs(s, acts)
    decreases acts
  {
    acts == []
    || (!Loses(s, acts[0]) && !Spoils(s, acts[0]) && Careful(Apply(s, acts[0]), acts[1..]))
  }

  lemma {:induction false} RunBase(s: State, b: Start, acts: seq<Action>)
    requires Base(s, b) && Runs(s, acts)
    ensures Base(After(s, acts), b)
    decreases acts
  {
    hide Base;
    if acts != [] {
      StepBase(s, b, acts[0]);
      RunBase(Apply(s, acts[0]), b, acts[1..]);
    }
  }

  lemma {:induction false} RunInv(s: State, b: Start, acts: seq<Action>)
    requires Inv(s, b) && Runs(s, acts) && Careful(s, acts)
    ensures Inv(After(s, acts), b)
    decreases acts
  {
    hide Inv, Loses, Spoils;
    if acts != [] {
      StepInv(s, b, acts[0]);
      RunInv(Apply(s, acts[0]), b, acts[1..]);
    }
  }

  /** Over every careful run from the moment the collector switches on, in any
      interleaving, a quiescent state is one in which it may flip. */
  lemma {:induction false} CarefulRunFlips(s: State, acts: seq<Action>)
    requires Init(s) && Runs(s, acts) && Careful(s, acts)
    requires Quiescent(After(s, acts))
    ensures FlipSafe(After(s, acts))
  {
    var live := LiveExists(s);
    var b := Start(s.roots, live);
    InitInv(s, b);
    hide Inv, Quiescent, FlipSafe, Init, IsLive;
    RunInv(s, b, acts);
    FlipIsSafe(After(s, acts), b);
  }

  // ---- replays that die --------------------------------------------------------------

  /** The array's replica is being scanned, and no longer points back. */
  predicate PastFirst(c: Copy, id: Id) {
    c.phase.Scanning? && c.fields != [] && c.fields[0] != Primary(id)
  }

  /** The tag a replay reads is the stall tag just while the array is scanned. */
  lemma TagReadExact(s: State, b: Start, p: nat)
    requires Base(s, b) && Enabled(s, ReadTag(p))
    ensures var c := s.replicas[s.procs[p].log[0].id];
            var t := Apply(s, ReadTag(p));
            && t.procs[p].pc.Tagged?
            && (t.procs[p].pc.tag == STALL_TAG <==> c.phase.Scanning?)
  {
    hide Shapes, Pcs, KnownClosed, CleanKept, YoungGuarded, WordsOk, RootsGuarded;
    var e := s.procs[p].log[0];
    assert EntryOk(s, b, e);
    assert CopyOk(s, e.id, s.replicas[e.id]);
    TagKinds(s.heap[e.id]);
  }

  /** What the test for the backpointer finds, in terms of the scan. */
  lemma BackExact(s: State, b: Start, p: nat)
    requires Base(s, b) && Enabled(s, TestBack(p))
    ensures var e := s.procs[p].log[0];
            var c := s.replicas[e.id];
            && (Drops(s, TestBack(p)) ==> c.phase.Gray? || (c.phase.Scanning? && c.phase.next == 0))
            && (c.phase.Gray? || (c.phase.Scanning? && !Begun(c)) ==> Drops(s, TestBack(p)))
            && (Apply(s, TestBack(p)).procs[p].pc.Tested? <==> !Drops(s, TestBack(p)))
  {
    hide Shapes, Pcs, KnownClosed, CleanKept, YoungGuarded, WordsOk, RootsGuarded;
    var e := s.procs[p].log[0];
    assert EntryOk(s, b, e);
    assert CopyOk(s, e.id, s.replicas[e.id]);
  }

  /** A replay that has come to its fetch dies there exactly when the tag it read is
      the stall tag. */
  lemma FetchDiesExactly(s: State, b: Start, p: nat)
    requires Base(s, b) && Enabled(s, Fetch(p))
    ensures Apply(s, Fetch(p)).procs[p].pc == Dead <==> s.procs[p].pc.tag == STALL_TAG
  {
    ProcFrameAt(s, Fetch(p), p);
    FetchMoves(s, b, Fetch(p));
    hide Base, Apply;
  }

  /** The steps of a replay from its reading the tag, with nobody else in between. */
  function Uninterrupted(s: State, p: nat): State
    requires Enabled(s, ReadTag(p))
  {
    var s1 := Apply(s, ReadTag(p));
    if !Enabled(s1, TestBack(p)) then s1
    else
      var s2 := Apply(s1, TestBack(p));
      if !Enabled(s2, Fetch(p)) then s2 else Apply(s2, Fetch(p))
  }

  /** In every reachable state, a replay about to read the tag dies, if it is not
      interrupted, exactly when its array is being scanned past the first field. */
  lemma ReplayDiesExactly(s: State, b: Start, p: nat)
    requires Base(s, b) && Enabled(s, ReadTag(p))
    ensures Uninterrupted(s, p).procs[p].pc == Dead
            <==> PastFirst(s.replicas[s.procs[p].log[0].id], s.procs[p].log[0].id)
  {
    hide Base;
    var s1 := Apply(s, ReadTag(p));
    TagReadExact(s, b, p);
    StepBase(s, b, ReadTag(p));
    EntryThere(s, b, p);
    assert Enabled(s1, TestBack(p));
    if !Drops(s1, TestBack(p)) {
      BackExact(s1, b, p);
      StepBase(s1, b, TestBack(p));
      FetchDiesExactly(Apply(s1, TestBack(p)), b, p);
    }
  }

  lemma EntryThere(s: State, b: Start, p: nat)
    requires Base(s, b) && Replaying(s, p)
    ensures var e := s.procs[p].log[0];
            HasField(s.heap, e.id, e.index) && s.replicas[e.id].fields != []
  {
    hide Shapes, Pcs, KnownClosed, CleanKept, YoungGuarded, WordsOk, RootsGuarded;
    assert EntryOk(s, b, s.procs[p].log[0]);
    assert CopyOk(s, s.procs[p].log[0].id, s.replicas[s.procs[p].log[0].id]);
  }

  /** No replay holds the stall tag, and none is dead. */
  predicate NoneStalled(s: State) {
    forall p | 0 <= p < |s.procs| :: Unstalled(s.procs[p].pc)
  }

  /** A run in which no replay reads the tag of an array under scan. */
  predicate Patient(s: State, acts: seq<Action>)
    requires Runs(s, acts)
    decreases acts
  {
    || acts == []
    || (&& (acts[0].ReadTag? ==> !s.replicas[s.procs[acts[0].p].log[0].id].phase.Scanning?)
        && Patient(Apply(s, acts[0]), acts[1..]))
  }

  predicate Unstalled(pc: Pc) {
    pc != Dead && (pc.Tagged? || pc.Tested? ==> pc.tag != STALL_TAG)
  }

  lemma PatientPc(s: State, b: Start, a: Action, p: nat)
    requires Base(s, b) && Enabled(s, a) && p < |s.procs| && Unstalled(s.procs[p].pc)
    requires a.ReadTag? ==> !s.replicas[s.procs[a.p].log[0].id].phase.Scanning?
    ensures p < |Apply(s, a).procs| && Unstalled(Apply(s, a).procs[p].pc)
  {
    hide Base;
    if a.ReadTag? && a.p == p {
      TagReadExact(s, b, p);
    } else {
      if a.Fetch? && a.p == p {
        FetchMoves(s, b, a);
      }
      ProcFrameAt(s, a, p);
      hide Apply, AfterFetch;
    }
  }

  lemma PatientStep(s: State, b: Start, a: Action)
    requires Base(s, b) && Enabled(s, a) && NoneStalled(s)
    requires a.ReadTag? ==> !s.replicas[s.procs[a.p].log[0].id].phase.Scanning?
    ensures NoneStalled(Apply(s, a))
  {
    SameProcs(s, a);
    hide Apply, Base, Enabled, Unstalled;
    forall p | 0 <= p < |s.procs|
      ensures Unstalled(Apply(s, a).procs[p].pc)
    {
      PatientPc(s, b, a, p);
    }
  }

  /** No replay dies in a run in which none reads the tag of an array under scan. */
  lemma {:induction false} PatientRun(s: State, b: Start, acts: seq<Action>)
    requires Base(s, b) && Runs(s, acts) && Patient(s, acts) && NoneStalled(s)
    ensures NoneStalled(After(s, acts))
    decreases acts
  {
    hide Base, NoneStalled;
    if acts != [] {
      PatientStep(s, b, acts[0]);
      StepBase(s, b, acts[0]);
      PatientRun(Apply(s, acts[0]), b, acts[1..]);
    }
  }

  lemma {:induction false} NoReplayDies(s: State, acts: seq<Action>)
    requires Init(s) && Runs(s, acts) && Patient(s, acts)
    ensures forall p | 0 <= p < |After(s, acts).procs| :: After(s, acts).procs[p].pc != Dead
  {
    var live := LiveExists(s);
    var b := Start(s.roots, live);
    InitInv(s, b);
    PatientRun(s, b, acts);
  }

  /** What a processor's replay has met: the stall tag, and after it no backpointer. */
  datatype Fate = Unharmed | ReadStall | PassedStall | Died

  /** The array was under scan when the replay read the tag, the backpointer was gone
      when it tested, and then it fetched. */
  function NextFate(s: State, a: Action, p: nat, fate: Fate): Fate
    requires Enabled(s, a)
  {
    if a == ReadTag(p) then
      if s.replicas[s.procs[p].log[0].id].phase.Scanning? then ReadStall else Unharmed
    else if a == TestBack(p) then if fate == ReadStall && !Drops(s, a) then PassedStall else Unharmed
    else if a == Fetch(p) then if fate == PassedStall then Died else Unharmed
    else fate
  }

  function FateAfter(s: State, acts: seq<Action>, p: nat, fate: Fate): Fate
    requires Runs(s, acts)
    decreases acts
  {
    if acts == [] then fate else FateAfter(Apply(s, acts[0]), acts[1..], p, NextFate(s, acts[0], p, fate))
  }

  predicate Matches(pc: Pc, fate: Fate) {
    && (fate == ReadStall <==> pc == Tagged(STALL_TAG))
    && (fate == PassedStall <==> pc == Tested(STALL_TAG))
    && (fate == Died <==> pc == Dead)
  }

  lemma StepFate(s: State, b: Start, a: Action, p: nat, fate: Fate)
    requires Base(s, b) && Enabled(s, a) && p < |s.procs| && Matches(s.procs[p].pc, fate)
    ensures p < |Apply(s, a).procs| && Matches(Apply(s, a).procs[p].pc, NextFate(s, a, p, fate))
  {
    hide Apply, Base, Enabled, Matches, NextFate, PcAfter, LogAfter, YoungAfter, ModeAfter;
    SameProcs(s, a);
    ProcFrameAt(s, a, p);
    if IsReplay(a) && a.p == p {
      ReplayFate(s, b, a, fate);
    } else {
      NotReplaying(s, a, p);
      OtherFate(s, a, p, fate);
    }
  }

  lemma OtherFate(s: State, a: Action, p: nat, fate: Fate)
    requires Enabled(s, a) && !(IsReplay(a) && a.p == p)
    ensures NextFate(s, a, p, fate) == fate
  {}

  lemma ReplayFate(s: State, b: Start, a: Action, fate: Fate)
    requires Base(s, b) && Enabled(s, a) && IsReplay(a) && Matches(s.procs[a.p].pc, fate)
    ensures Matches(PcAfter(s, a, a.p), NextFate(s, a, a.p, fate))
  {
    hide Apply, Base;
    if a.ReadTag? {
      TagReadStall(s, b, a.p);
    } else if a.Fetch? {
      FetchMoves(s, b, a);
    }
  }

  lemma TagReadStall(s: State, b: Start, p: nat)
    requires Base(s, b) && Enabled(s, ReadTag(p))
    ensures var c := s.replicas[s.procs[p].log[0].id]; c.tag == STALL_TAG <==> c.phase.Scanning?
  {
    hide Base;
    TagReadExact(s, b, p);
  }

  lemma {:induction false} RunFate(s: State, b: Start, acts: seq<Action>, p: nat, fate: Fate)
    requires Base(s, b) && Runs(s, acts) && p < |s.procs| && Matches(s.procs[p].pc, fate)
    ensures p < |After(s, acts).procs| && Matches(After(s, acts).procs[p].pc, FateAfter(s, acts, p, fate))
    decreases acts
  {
    hide Base, Matches, NextFate, Apply, Enabled;
    if acts != [] {
      StepFate(s, b, acts[0], p, fate);
      StepBase(s, b, acts[0]);
      RunFate(Apply(s, acts[0]), b, acts[1..], p, NextFate(s, acts[0], p, fate));
    }
  }

  /** In every run a replay is dead exactly if its array was under scan when it read the
      tag, the backpointer was gone when it tested, and it went on to fetch. */
  lemma {:induction false} DeathExactly(s: State, acts: seq<Action>, p: nat)
    requires Init(s) && Runs(s, acts) && p < |s.procs|
    ensures p < |After(s, acts).procs|
    ensures After(s, acts).procs[p].pc == Dead <==> FateAfter(s, acts, p, Unharmed) == Died
  {
    var live := LiveExists(s);
    var b := Start(s.roots, live);
    InitInv(s, b);
    assert s.procs[p].pc == Idle;
    hide Base, Runs, After, FateAfter, Init;
    RunFate(s, b, acts, p, Unharmed);
  }
}

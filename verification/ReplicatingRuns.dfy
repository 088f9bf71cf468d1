/** Any run of the replicating collector, careful or not: what its steps have left
    undone when the collector could flip. */
module ReplicatingRuns {
  import opened Replicating
  import opened ReplicatingInv
  import opened ReplicatingFrames
  import opened ReplicatingBase
  import opened ReplicatingAgree
  import opened ReplicatingSnapshot
  import opened ReplicatingProof

  // ---- pointers to replicas ----------------------------------------------------------

  predicate Exists(s: State, w: Word) { w.Replica? ==> w.id in s.replicas }

  ghost predicate CopyLinked(s: State, c: Copy) {
    && (forall i: nat | i < |c.fields| :: Exists(s, c.fields[i]))
    && (c.phase.Scanning? && c.phase.scan.Linking? ==> Exists(s, c.phase.scan.word))
  }

  /** Whatever points at a replica points at one that is there. */
  ghost predicate Linked(s: State) {
    && (forall id | id in s.replicas :: CopyLinked(s, s.replicas[id]))
    && (forall p | 0 <= p < |s.procs| && s.procs[p].pc.Storing? :: Exists(s, s.procs[p].pc.word))
  }

  lemma StillExists(s: State, a: Action, w: Word)
    requires Enabled(s, a) && Exists(s, w)
    ensures Exists(Apply(s, a), w)
  {
    if w.Replica? {
      CopyFrameAt(s, a, w.id);
    }
    hide Apply, CopyAfter;
  }

  lemma LinkedCopy(s: State, b: Start, a: Action, id: Id)
    requires Base(s, b) && Linked(s) && Enabled(s, a) && id in s.replicas
    ensures CopyLinked(Apply(s, a), CopyAfter(s, a, id))
  {
    hide Apply, Shapes, Pcs, EntriesOk, KnownClosed, CleanKept, YoungGuarded, WordsOk, RootsGuarded, ObjectTag;
    var c, d := s.replicas[id], CopyAfter(s, a, id);
    assert CopyLinked(s, c) && CopyOk(s, id, c);
    forall i: nat | i < |d.fields|
      ensures Exists(Apply(s, a), d.fields[i])
    {
      if i < |c.fields| {
        StillExists(s, a, c.fields[i]);
      }
      if a.StoreField? {
        StillExists(s, a, s.procs[a.p].pc.word);
      }
      if a.ScanLink? {
        StillExists(s, a, s.replicas[a.id].phase.scan.word);
      }
    }
    if d.phase.Scanning? && d.phase.scan.Linking? {
      LinksTo(s, b, a, id);
    }
  }

  lemma LinksTo(s: State, b: Start, a: Action, id: Id)
    requires Base(s, b) && Linked(s) && Enabled(s, a) && id in s.replicas
    requires var d := CopyAfter(s, a, id); d.phase.Scanning? && d.phase.scan.Linking?
    ensures Exists(Apply(s, a), CopyAfter(s, a, id).phase.scan.word)
  {
    hide Apply, Shapes, Pcs, EntriesOk, KnownClosed, CleanKept, YoungGuarded, WordsOk, RootsGuarded, ObjectTag;
    var c := s.replicas[id];
    assert CopyLinked(s, c) && CopyOk(s, id, c);
    if a.ScanForward? && a.id == id {
      StillReplicated(s, a, c.phase.scan.word.id);
    } else if a.ScanSelf? && a.id == id {
      StillExists(s, a, Replica(id));
    } else {
      StillExists(s, a, c.phase.scan.word);
    }
  }

  lemma LinkedNew(s: State, a: Action, id: Id)
    requires Enabled(s, a) && id in s.heap
    ensures CopyLinked(Apply(s, a), NewCopy(id, s.heap[id]))
  {
    hide Apply;
  }

  lemma LinkedProc(s: State, b: Start, a: Action, p: nat)
    requires Base(s, b) && Linked(s) && Enabled(s, a) && p < |s.procs| && PcAfter(s, a, p).Storing?
    ensures Exists(Apply(s, a), PcAfter(s, a, p).word)
  {
    hide Apply, Shapes, Copies, KnownClosed, CleanKept, YoungGuarded, RootsGuarded, ObjectTag;
    if a.Fetch? && a.p == p {
      FetchMoves(s, b, a);
    } else if a.ForwardFetched? && a.p == p {
      assert PcOk(s, s.procs[p]);
      StillReplicated(s, a, s.procs[p].pc.word.id);
    } else {
      StillExists(s, a, s.procs[p].pc.word);
    }
  }

  lemma StepLinked(s: State, b: Start, a: Action)
    requires Base(s, b) && Linked(s) && Enabled(s, a)
    ensures Linked(Apply(s, a))
  {
    CopyFrame(s, a);
    ProcFrame(s, a);
    hide Apply, Base, Enabled, CopyAfter, PcAfter, CopyLinked, Exists, NewCopy, Target, LogAfter, YoungAfter, ModeAfter;
    forall id | id in Apply(s, a).replicas
      ensures CopyLinked(Apply(s, a), Apply(s, a).replicas[id])
    {
      if id in s.replicas {
        LinkedCopy(s, b, a, id);
      } else {
        LinkedNew(s, a, id);
      }
    }
    forall p | 0 <= p < |s.procs| && PcAfter(s, a, p).Storing?
      ensures Exists(Apply(s, a), PcAfter(s, a, p).word)
    {
      LinkedProc(s, b, a, p);
    }
  }

  // ---- what has to be right at the flip ----------------------------------------------

  lemma LeastLive(s: State, b: Start) returns (live: set<Id>)
    requires Base(s, b)
    ensures IsLive(s.heap, s.held, live)
  {
    hide Copies, Pcs, EntriesOk, CleanKept, YoungGuarded, RootsGuarded;
    assert Closed(s.heap, s.held, Known(s, b));
    live := set id | id in Known(s, b) && forall ids | Closed(s.heap, s.held, ids) :: id in ids;
  }

  /** Replicas of the objects that roots hold, and agreeing fields, are enough: what a
      replica that agrees points at is replicated. */
  lemma AgreeingIsReplicated(s: State, b: Start, live: set<Id>)
    requires Base(s, b) && Linked(s) && Quiescent(s) && IsLive(s.heap, s.held, live) && s.held <= s.replicas.Keys
    requires forall id, i: nat | id in live && HasField(s.heap, id, i) :: !Spoilt(s, id, i)
    ensures live <= s.replicas.Keys
  {
    hide Shapes, Pcs, EntriesOk, KnownClosed, CleanKept, YoungGuarded, WordsOk, RootsGuarded, Quiescent, Spoilt;
    var there := set id | id in live && id in s.replicas;
    forall id, i: nat | id in there && HasField(s.heap, id, i) && s.heap[id].traced && s.heap[id].fields[i].Primary?
      ensures s.heap[id].fields[i].id in there
    {
      assert CopyOk(s, id, s.replicas[id]) && CopyLinked(s, s.replicas[id]);
      assert !Spoilt(s, id, i);
      QuietSpoilt(s, b, id, i);
      assert Exists(s, s.replicas[id].fields[i]);
    }
    assert Closed(s.heap, s.held, there);
  }

  lemma QuietSpoilt(s: State, b: Start, id: Id, i: nat)
    requires Base(s, b) && Quiescent(s) && IsField(s, id, i)
    ensures Spoilt(s, id, i) <==> s.replicas[id].fields[i] != Image(s.heap[id].fields[i])
  {
    hide Base, Quiescent, FieldAgrees;
    QuietField(s, b, id, i);
  }

  ghost predicate NoLiveSpoilt(s: State) {
    forall live, id, i: nat | IsLive(s.heap, s.held, live) && id in live && HasField(s.heap, id, i) :: !Spoilt(s, id, i)
  }

  /** The flip is safe exactly when what the roots hold is replicated and no live field
      is spoilt. */
  lemma FlipByRoots(s: State, b: Start)
    requires Base(s, b) && Linked(s) && Quiescent(s)
    ensures FlipSafe(s) <==>
            s.held <= s.replicas.Keys && NoLiveSpoilt(s)
  {
    hide Base, Linked, Quiescent, Spoilt, FlipSafe;
    FlipExact(s, b);
    var least := LeastLive(s, b);
    assert s.held <= least;
    hide Closed;
    forall live | IsLive(s.heap, s.held, live) && s.held <= s.replicas.Keys
      && (forall id, i: nat | id in live && HasField(s.heap, id, i) :: !Spoilt(s, id, i))
      ensures live <= s.replicas.Keys
    {
      AgreeingIsReplicated(s, b, live);
    }
  }

  // ---- histories of fields -----------------------------------------------------------

  /** Exactly when a field is spoilt after a step. */
  lemma SpoiltStep(s: State, b: Start, a: Action, id: Id, i: nat)
    requires Base(s, b) && Enabled(s, a)
    ensures Spoilt(Apply(s, a), id, i) <==>
            || (Spoils(s, a) && Closes(s, a, id, i))
            || (Spoilt(s, id, i) && !Writes(a, id, i) && !FindsSelf(s, a, id, i))
  {
    hide Apply, FieldAgrees, Base, Enabled, HasField;
    ClosesField(s, a, id, i);
    if IsField(s, id, i) {
      FieldExact(s, b, a, id, i);
    } else if id in s.replicas {
      if IsField(Apply(s, a), id, i) {
        WasField(s, b, a, id, i);
      }
    } else if IsField(Apply(s, a), id, i) {
      NewField(s, a, id, i);
    }
  }

  lemma ClosesField(s: State, a: Action, id: Id, i: nat)
    requires Enabled(s, a)
    ensures Spoils(s, a) && Closes(s, a, id, i) ==> IsField(s, id, i)
  {}

  /** No step of the run writes the field or finds the array pointing at itself there. */
  predicate Unhealed(s: State, acts: seq<Action>, id: Id, i: nat)
    requires Runs(s, acts)
    decreases acts
  {
    || acts == []
    || (&& !Writes(acts[0], id, i) && !FindsSelf(s, acts[0], id, i)
        && Unhealed(Apply(s, acts[0]), acts[1..], id, i))
  }

  /** Some step of the run spoils the field, and none after it heals it. */
  ghost predicate LeftWrong(s: State, acts: seq<Action>, id: Id, i: nat)
    requires Runs(s, acts)
    decreases acts
  {
    && acts != []
    && var t, rest := Apply(s, acts[0]), acts[1..];
       || (Spoils(s, acts[0]) && Closes(s, acts[0], id, i) && Unhealed(t, rest, id, i))
       || LeftWrong(t, rest, id, i)
  }

  /** A field is spoilt in the end exactly when the run has left it wrong. */
  lemma {:induction false} RunSpoilt(s: State, b: Start, acts: seq<Action>, id: Id, i: nat)
    requires Base(s, b) && Runs(s, acts)
    ensures Spoilt(After(s, acts), id, i) <==>
            LeftWrong(s, acts, id, i) || (Spoilt(s, id, i) && Unhealed(s, acts, id, i))
    decreases acts
  {
    hide Base, Spoilt, Apply, Enabled, Spoils, Closes, Writes, FindsSelf;
    if acts != [] {
      StepBase(s, b, acts[0]);
      SpoiltStep(s, b, acts[0], id, i);
      RunSpoilt(Apply(s, acts[0]), b, acts[1..], id, i);
    }
  }

  // ---- histories of edges ------------------------------------------------------------

  /** No step of the run guards the edge anew. */
  predicate Unmended(s: State, acts: seq<Action>, id: Id, i: nat)
    requires Runs(s, acts)
    decreases acts
  {
    || acts == []
    || (&& (IsEdge(s, id, i) ==> !Mends(s, acts[0], id, i))
        && Unmended(Apply(s, acts[0]), acts[1..], id, i))
  }

  /** Some step of the run opens the edge, and none after it guards it anew. */
  ghost predicate LeftOpen(s: State, acts: seq<Action>, id: Id, i: nat)
    requires Runs(s, acts)
    decreases acts
  {
    && acts != []
    && var t, rest := Apply(s, acts[0]), acts[1..];
       (Opens(s, acts[0], id, i) && Unmended(t, rest, id, i)) || LeftOpen(t, rest, id, i)
  }

  /** A snapshot edge is open in the end exactly when the run has left it open. */
  lemma {:induction false} RunOpen(s: State, b: Start, acts: seq<Action>, id: Id, i: nat)
    requires Base(s, b) && Runs(s, acts) && IsEdge(s, id, i)
    ensures IsEdge(After(s, acts), id, i)
    ensures !EdgeGuarded(After(s, acts), id, i) <==>
            LeftOpen(s, acts, id, i) || (!EdgeGuarded(s, id, i) && Unmended(s, acts, id, i))
    decreases acts
  {
    hide Base, EdgeGuarded, Apply, Enabled, Opens, Mends, IsEdge;
    if acts != [] {
      StepBase(s, b, acts[0]);
      EdgeExact(s, b, acts[0], id, i);
      RunOpen(Apply(s, acts[0]), b, acts[1..], id, i);
    }
  }

  // ---- histories of replicas ---------------------------------------------------------

  /** Some step of the run makes the replica. */
  predicate Made(s: State, acts: seq<Action>, id: Id)
    requires Runs(s, acts)
    decreases acts
  {
    acts != [] && (IsNew(s, acts[0], id) || Made(Apply(s, acts[0]), acts[1..], id))
  }

  lemma {:induction false} RunMade(s: State, acts: seq<Action>, id: Id)
    requires Runs(s, acts)
    ensures id in After(s, acts).replicas <==> id in s.replicas || Made(s, acts, id)
    decreases acts
  {
    hide Apply, Enabled, IsNew;
    if acts != [] {
      CopyFrameAt(s, acts[0], id);
      RunMade(Apply(s, acts[0]), acts[1..], id);
    }
  }

  lemma {:induction false} RunLinked(s: State, b: Start, acts: seq<Action>)
    requires Base(s, b) && Linked(s) && Runs(s, acts)
    ensures Base(After(s, acts), b) && Linked(After(s, acts))
    decreases acts
  {
    hide Base, Linked, Apply, Enabled;
    if acts != [] {
      StepBase(s, b, acts[0]);
      StepLinked(s, b, acts[0]);
      RunLinked(Apply(s, acts[0]), b, acts[1..]);
    }
  }

  /** The snapshot a run from `s` keeps to. */
  ghost predicate Begins(s: State, b: Start) {
    Init(s) && b.roots == s.roots && IsLive(s.heap, s.held, b.live)
  }

  lemma BeginsWell(s: State, b: Start)
    requires Begins(s, b)
    ensures Inv(s, b) && Linked(s)
  {
    InitInv(s, b);
  }

  /** In the end everything live in the snapshot has its replica exactly when the run has
      left none of its edges open. */
  lemma {:induction false} SnapshotMadeExactly(s: State, b: Start, acts: seq<Action>)
    requires Begins(s, b) && Runs(s, acts) && Quiescent(After(s, acts))
    ensures (forall id | id in b.live :: Made(s, acts, id)) <==>
            forall id, i: nat | id in b.live && IsEdge(s, id, i) :: !LeftOpen(s, acts, id, i)
  {
    BeginsWell(s, b);
    var t := After(s, acts);
    RunBase(s, b, acts);
    MadeFromBeginning(s, b, acts);
    forall id, i: nat | IsEdge(s, id, i)
      ensures IsEdge(t, id, i) && (LeftOpen(s, acts, id, i) <==> !EdgeGuarded(t, id, i))
    {
      RunOpen(s, b, acts, id, i);
    }
    SameEdges(s, b, acts);
    hide Base, Begins, Inv, Linked, Runs, After, EdgeGuarded, LeftOpen, Made, IsEdge;
    LiveReplicated(t, b);
  }

  lemma {:induction false} SameEdges(s: State, b: Start, acts: seq<Action>)
    requires Runs(s, acts)
    ensures forall id, i: nat :: IsEdge(After(s, acts), id, i) <==> IsEdge(s, id, i)
    decreases acts
  {
    hide Apply, Enabled, IsEdge;
    if acts != [] {
      SameSnap(s, acts[0]);
      SameEdges(Apply(s, acts[0]), b, acts[1..]);
    }
  }

  lemma LiveReplicated(t: State, b: Start)
    requires Base(t, b) && Quiescent(t)
    ensures b.live <= t.replicas.Keys <==> forall id, i: nat | id in b.live && IsEdge(t, id, i) :: EdgeGuarded(t, id, i)
  {
    hide EntriesOk, KnownClosed, YoungGuarded, Copies, Pcs, WordsOk, CleanKept;
    if b.live <= t.replicas.Keys {
      forall id, i: nat | id in b.live && IsEdge(t, id, i)
        ensures EdgeGuarded(t, id, i)
      {
        assert t.snap[id].fields[i].id in b.live;
      }
    }
    if forall id, i: nat | id in b.live && IsEdge(t, id, i) :: EdgeGuarded(t, id, i) {
      var there := set id | id in b.live && id in t.replicas;
      forall id, i: nat | id in there && IsEdge(t, id, i)
        ensures t.snap[id].fields[i].id in there
      {
        assert EdgeGuarded(t, id, i);
      }
      assert Closed(t.snap, b.roots, there);
    }
  }

  /** What the run has left open it has left without a replica; and whatever is live in
      the snapshot and has none lies behind such an edge. */
  lemma {:induction false} MissedBehindOpen(s: State, b: Start, acts: seq<Action>, behind: set<Id>)
    requires Begins(s, b) && Runs(s, acts) && Quiescent(After(s, acts))
    requires forall id, i: nat | IsEdge(s, id, i) && (id in behind || (id in b.live && LeftOpen(s, acts, id, i))) ::
               EdgeTarget(s, id, i) in behind
    ensures forall id, i: nat | IsEdge(s, id, i) && LeftOpen(s, acts, id, i) :: !Made(s, acts, EdgeTarget(s, id, i))
    ensures forall id | id in b.live && !Made(s, acts, id) :: id in behind
  {
    BeginsWell(s, b);
    var t := After(s, acts);
    RunBase(s, b, acts);
    MadeFromBeginning(s, b, acts);
    forall id, i: nat | IsEdge(s, id, i)
      ensures IsEdge(t, id, i) && (LeftOpen(s, acts, id, i) <==> !EdgeGuarded(t, id, i))
    {
      RunOpen(s, b, acts, id, i);
    }
    SameEdges(s, b, acts);
    hide Base, Begins, Inv, Linked, Runs, After, LeftOpen, Made, Untouched, InHand, LoggedFirst, Apply;
    forall id, i: nat | IsEdge(t, id, i)
      ensures EdgeTarget(t, id, i) == EdgeTarget(s, id, i)
    {
      SameTarget(s, acts, id, i);
    }
    BehindOpen(t, b, behind);
  }

  lemma {:induction false} SameTarget(s: State, acts: seq<Action>, id: Id, i: nat)
    requires Runs(s, acts) && IsEdge(s, id, i)
    ensures IsEdge(After(s, acts), id, i) && EdgeTarget(After(s, acts), id, i) == EdgeTarget(s, id, i)
    decreases acts
  {
    hide Apply, Enabled;
    if acts != [] {
      SameSnap(s, acts[0]);
      SameTarget(Apply(s, acts[0]), acts[1..], id, i);
    }
  }

  lemma BehindOpen(t: State, b: Start, behind: set<Id>)
    requires Base(t, b) && Quiescent(t)
    requires forall id, i: nat | IsEdge(t, id, i) && (id in behind || (id in b.live && !EdgeGuarded(t, id, i))) ::
               EdgeTarget(t, id, i) in behind
    ensures b.live <= t.replicas.Keys + behind
  {
    hide EntriesOk, KnownClosed, YoungGuarded, Copies, Pcs, WordsOk, CleanKept;
    var there := set id | id in b.live && (id in t.replicas || id in behind);
    forall id, i: nat | id in there && IsEdge(t, id, i)
      ensures t.snap[id].fields[i].id in there
    {
      if id !in behind && EdgeGuarded(t, id, i) {
        assert id in t.replicas;
      }
    }
    assert Closed(t.snap, b.roots, there);
  }

  /** The run has left no field wrong of an object live in the end. */
  ghost predicate NoLiveWrong(s: State, acts: seq<Action>)
    requires Runs(s, acts)
  {
    var t := After(s, acts);
    forall live, id, i: nat | IsLive(t.heap, t.held, live) && id in live && HasField(t.heap, id, i) ::
      !LeftWrong(s, acts, id, i)
  }

  /** Over every run, a quiescent state is one in which the collector may flip exactly
      when some step has made a replica of each object in a root, and no live field has
      been left wrong. */
  lemma {:induction false} RunFlipsExactly(s: State, acts: seq<Action>)
    requires Init(s) && Runs(s, acts) && Quiescent(After(s, acts))
    ensures var t := After(s, acts);
            FlipSafe(t) <==>
            (forall id | id in t.held :: Made(s, acts, id)) && NoLiveWrong(s, acts)
  {
    var snapshot := LiveExists(s);
    var b := Start(s.roots, snapshot);
    BeginsWell(s, b);
    hide Base, Init, Inv, Linked, Runs, After, Made, Quiescent, FlipSafe, Begins, NoLiveSpoilt, NoLiveWrong;
    RunLinked(s, b, acts);
    FlipByRoots(After(s, acts), b);
    MadeFromBeginning(s, b, acts);
    WrongIsSpoilt(s, b, acts);
  }

  lemma {:induction false} WrongIsSpoilt(s: State, b: Start, acts: seq<Action>)
    requires Begins(s, b) && Runs(s, acts)
    ensures NoLiveWrong(s, acts) <==> NoLiveSpoilt(After(s, acts))
  {
    hide Begins, Runs, After, Spoilt, LeftWrong, IsLive;
    WrongFromBeginning(s, b, acts);
  }

  lemma {:induction false} MadeFromBeginning(s: State, b: Start, acts: seq<Action>)
    requires Begins(s, b) && Runs(s, acts)
    ensures forall id :: Made(s, acts, id) <==> id in After(s, acts).replicas
  {
    NothingMade(s, b);
    hide Begins, Runs, After, Made;
    forall id
      ensures Made(s, acts, id) <==> id in After(s, acts).replicas
    {
      RunMade(s, acts, id);
    }
  }

  lemma {:induction false} WrongFromBeginning(s: State, b: Start, acts: seq<Action>)
    requires Begins(s, b) && Runs(s, acts)
    ensures forall id, i: nat :: LeftWrong(s, acts, id, i) <==> Spoilt(After(s, acts), id, i)
  {
    BeginsWell(s, b);
    NothingSpoilt(s, b);
    hide Base, Begins, Inv, Runs, After, Spoilt, LeftWrong, Unhealed;
    forall id, i: nat
      ensures LeftWrong(s, acts, id, i) <==> Spoilt(After(s, acts), id, i)
    {
      RunSpoilt(s, b, acts, id, i);
    }
  }

  lemma NothingSpoilt(s: State, b: Start)
    requires Begins(s, b)
    ensures forall id, i: nat :: !Spoilt(s, id, i)
  {}

  lemma NothingMade(s: State, b: Start)
    requires Begins(s, b)
    ensures s.replicas == map[]
  {}

  /** When the run has left no live snapshot edge open, only fields left wrong stand in
      the way of the flip. */
  lemma {:induction false} GuardedRunFlipsExactly(s: State, b: Start, acts: seq<Action>)
    requires Begins(s, b) && Runs(s, acts) && Quiescent(After(s, acts))
    requires forall id, i: nat | id in b.live && IsEdge(s, id, i) :: !LeftOpen(s, acts, id, i)
    ensures FlipSafe(After(s, acts)) <==> NoLiveWrong(s, acts)
  {
    BeginsWell(s, b);
    NothingMade(s, b);
    SnapshotMadeExactly(s, b, acts);
    RunFlipsExactly(s, acts);
    RunBase(s, b, acts);
    forall id | id in After(s, acts).held
      ensures Made(s, acts, id)
    {
      RunMade(s, acts, id);
      HeldThere(After(s, acts), b, id);
    }
  }

  lemma HeldThere(t: State, b: Start, id: Id)
    requires Base(t, b) && Quiescent(t) && id in t.held
    ensures id in b.live || id in t.replicas
  {
    hide Shapes, Copies, Pcs, EntriesOk, CleanKept, WordsOk, RootsGuarded;
  }
}

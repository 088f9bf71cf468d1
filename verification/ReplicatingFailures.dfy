/** Runs of the replicating collector that end in an unsafe flip, and one in which a
    replay dies. */
module ReplicatingFailures {
  import opened Tags
  import opened Replicating
  import opened ReplicatingProof

  lemma {:induction false} RunCons(s: State, a: Action, rest: seq<Action>)
    requires Enabled(s, a) && Runs(Apply(s, a), rest)
    ensures Runs(s, [a] + rest) && After(s, [a] + rest) == After(Apply(s, a), rest)
  {
    assert ([a] + rest)[1..] == rest;
  }

  lemma {:induction false} RunAppend(s: State, first: seq<Action>, rest: seq<Action>)
    requires Runs(s, first) && Runs(After(s, first), rest)
    ensures Runs(s, first + rest) && After(s, first + rest) == After(After(s, first), rest)
    decreases first
  {
    hide Apply, Enabled;
    if first == [] {
      assert first + rest == rest;
    } else {
      RunAppend(Apply(s, first[0]), first[1..], rest);
      RunCons(s, first[0], first[1..] + rest);
      assert first + rest == [first[0]] + (first[1..] + rest);
    }
  }

  /** Two and three steps, one after the other. */
  lemma {:induction false} RunTwo(s: State, a: Action, c: Action)
    requires Enabled(s, a) && Enabled(Apply(s, a), c)
    ensures Runs(s, [a, c]) && After(s, [a, c]) == Apply(Apply(s, a), c)
  {
    RunCons(Apply(s, a), c, []);
    RunCons(s, a, [c]);
    assert [a] + [c] == [a, c] && [c] + [] == [c];
  }

  lemma {:induction false} RunThree(s: State, a: Action, c: Action, d: Action)
    requires Enabled(s, a) && Enabled(Apply(s, a), c) && Enabled(Apply(Apply(s, a), c), d)
    ensures Runs(s, [a, c, d]) && After(s, [a, c, d]) == Apply(Apply(Apply(s, a), c), d)
  {
    RunTwo(Apply(s, a), c, d);
    RunCons(s, a, [c, d]);
    assert [a] + [c, d] == [a, c, d];
  }

  const IDLE := Proc(Mutating, [], [], Idle)

  // ---- an array of one word ----------------------------------------------------------

  /** Object 0 is an array of one plain word. */
  function OneArray(n: int, procs: seq<Proc>): State {
    var heap := map[0 := Object(true, false, [Scalar(n)])];
    State(heap, {0}, procs, map[], {0}, heap, {})
  }

  /** The array holds a word, and its replica stands like this. */
  predicate Stands(s: State, n: int, c: Copy, dirty: set<(Id, nat)>) {
    && s.heap == map[0 := Object(true, false, [Scalar(n)])] && s.replicas == map[0 := c]
    && s.roots == {} && s.held == {0} && s.snap.Keys == {0} && s.dirty == dirty
  }

  lemma StaleIsUnsafe(t: State, n: int, m: int)
    requires Stands(t, n, Copy(TAG, [Scalar(m)], Black), {(0, 0)}) && n != m
    ensures !FlipSafe(t)
  {
    assert IsLive(t.heap, t.held, {0});
    assert t.replicas[0].fields[0] != Image(t.heap[0].fields[0]);
  }

  const TAG: nat := WORD_ARRAY_TYPE + 32

  /** The array's root is forwarded. */
  lemma {:induction false} Forward(s: State, procs: seq<Proc>)
    requires s == OneArray(0, procs)
    ensures Runs(s, [ForwardRoot(0)])
    ensures var t := After(s, [ForwardRoot(0)]); Stands(t, 0, Copy(TAG, [Primary(0)], Gray), {}) && t.procs == procs
  {
    RunCons(s, ForwardRoot(0), []);
    assert [ForwardRoot(0)] + [] == [ForwardRoot(0)];
    assert After(s, [ForwardRoot(0)]).replicas[0].fields == [Primary(0)];
  }

  /** The scan begins and loads the field. */
  lemma {:induction false} LoadField(s: State)
    requires Stands(s, 0, Copy(TAG, [Primary(0)], Gray), {})
    ensures Runs(s, [ScanBegin(0), ScanLoad(0)])
    ensures var t := After(s, [ScanBegin(0), ScanLoad(0)]);
            Stands(t, 0, Copy(STALL_TAG, [Primary(0)], Scanning(0, Loaded(Scalar(0)))), {}) && t.procs == s.procs
  {
    RunTwo(s, ScanBegin(0), ScanLoad(0));
  }

  /** The scan stores what it loaded, and ends. */
  lemma {:induction false} FinishScan(s: State, n: int, dirty: set<(Id, nat)>)
    requires Stands(s, n, Copy(STALL_TAG, [Primary(0)], Scanning(0, Loaded(Scalar(0)))), dirty)
    ensures Runs(s, [ScanStore(0), ScanEnd(0)])
    ensures var t := After(s, [ScanStore(0), ScanEnd(0)]);
            Stands(t, n, Copy(TAG, [Scalar(0)], Black), dirty) && t.procs == s.procs
  {
    RunTwo(s, ScanStore(0), ScanEnd(0));
    assert [Primary(0)][0 := Scalar(0)] == [Scalar(0)];
  }

  function Logged(n: int, first: bool): Entry { Entry(0, 0, Scalar(n), first) }

  lemma {:induction false} WritesField(s: State, p: nat, n: int, m: int, c: Copy, dirty: set<(Id, nat)>)
    requires Stands(s, n, c, dirty) && p < |s.procs| && s.procs[p] == IDLE
    ensures Enabled(s, Write(p, 0, 0, Scalar(m)))
    ensures var t := Apply(s, Write(p, 0, 0, Scalar(m)));
            && Stands(t, m, c, dirty + {(0, 0)})
            && t.procs == s.procs[p := Proc(Mutating, [], [Logged(n, (0, 0) !in dirty)], Idle)]
  {
    var e := Logged(n, (0, 0) !in dirty);
    assert [Scalar(n)][0 := Scalar(m)] == [Scalar(m)];
    assert [] + [e] == [e];
  }

  lemma {:induction false} Releases(s: State, p: nat)
    requires p < |s.procs| && s.procs[p].mode == Mutating && s.procs[p].pc == Idle
    ensures Enabled(s, BeginRelease(p))
    ensures Apply(s, BeginRelease(p)) == s.(procs := s.procs[p := s.procs[p].(mode := Releasing)])
  {}

  /** A processor overwrites the field and begins to release. */
  lemma {:induction false} WriteAndRelease(s: State, p: nat, n: int, m: int, c: Copy, dirty: set<(Id, nat)>)
    requires Stands(s, n, c, dirty) && p < |s.procs| && s.procs[p] == IDLE
    ensures Runs(s, [Write(p, 0, 0, Scalar(m)), BeginRelease(p)])
    ensures var t := After(s, [Write(p, 0, 0, Scalar(m)), BeginRelease(p)]);
            && Stands(t, m, c, dirty + {(0, 0)})
            && t.procs == s.procs[p := Proc(Releasing, [], [Logged(n, (0, 0) !in dirty)], Idle)]
  {
    hide Apply, Enabled, Runs, After;
    WritesField(s, p, n, m, c, dirty);
    Releases(Apply(s, Write(p, 0, 0, Scalar(m))), p);
    RunTwo(s, Write(p, 0, 0, Scalar(m)), BeginRelease(p));
  }

  lemma {:induction false} EndsRelease(s: State, p: nat, n: int, c: Copy, dirty: set<(Id, nat)>)
    requires Stands(s, n, c, dirty) && p < |s.procs| && s.procs[p] == Proc(Releasing, [], [], Idle)
    ensures Runs(s, [EndRelease(p)])
    ensures var t := After(s, [EndRelease(p)]); Stands(t, n, c, dirty) && t.procs == s.procs[p := IDLE]
  {
    RunCons(s, EndRelease(p), []);
    assert [EndRelease(p)] + [] == [EndRelease(p)];
  }

  // ---- a write dropped during the scan -----------------------------------------------

  /** A replay that finds the backpointer. */
  lemma {:induction false} DropsWrite(s: State, n: int, c: Copy, dirty: set<(Id, nat)>, e: Entry)
    requires Stands(s, n, c, dirty) && c.fields == [Primary(0)] && |s.procs| == 1
    requires e.id == 0 && s.procs[0] == Proc(Releasing, [], [e], Idle)
    ensures Runs(s, [ReadPrimary(0), ReadTag(0), TestBack(0)])
    ensures var t := After(s, [ReadPrimary(0), ReadTag(0), TestBack(0)]);
            Stands(t, n, c, dirty) && t.procs == [Proc(Releasing, [], [], Idle)]
  {
    RunThree(s, ReadPrimary(0), ReadTag(0), TestBack(0));
    assert [e][1..] == [];
  }

  /** The scan has loaded the field and is about to store it. The field is written and
      the write replayed; the replay still sees the backpointer and lets the write go.
      The scan then stores the word it loaded, which the array has lost. */
  lemma {:induction false} DroppedWrite(s: State) returns (acts: seq<Action>)
    requires s == OneArray(0, [IDLE])
    ensures Init(s) && Runs(s, acts) && Quiescent(After(s, acts)) && !FlipSafe(After(s, acts))
  {
    hide Enabled, Apply, Runs, After, FlipSafe;
    Forward(s, [IDLE]);
    acts := [ForwardRoot(0)];
    var c := Copy(STALL_TAG, [Primary(0)], Scanning(0, Loaded(Scalar(0))));
    LoadField(After(s, acts));
    RunAppend(s, acts, [ScanBegin(0), ScanLoad(0)]);
    acts := acts + [ScanBegin(0), ScanLoad(0)];
    WriteAndRelease(After(s, acts), 0, 0, 1, c, {});
    RunAppend(s, acts, [Write(0, 0, 0, Scalar(1)), BeginRelease(0)]);
    acts := acts + [Write(0, 0, 0, Scalar(1)), BeginRelease(0)];
    DropsWrite(After(s, acts), 1, c, {(0, 0)}, Logged(0, true));
    RunAppend(s, acts, [ReadPrimary(0), ReadTag(0), TestBack(0)]);
    acts := acts + [ReadPrimary(0), ReadTag(0), TestBack(0)];
    EndsRelease(After(s, acts), 0, 1, c, {(0, 0)});
    RunAppend(s, acts, [EndRelease(0)]);
    acts := acts + [EndRelease(0)];
    FinishScan(After(s, acts), 1, {(0, 0)});
    RunAppend(s, acts, [ScanStore(0), ScanEnd(0)]);
    acts := acts + [ScanStore(0), ScanEnd(0)];
    StaleIsUnsafe(After(s, acts), 1, 0);
  }

  // ---- a store overtaken -------------------------------------------------------------

  lemma {:induction false} PassesTest(s: State, p: nat, n: int, m: int, dirty: set<(Id, nat)>, e: Entry)
    requires Stands(s, n, Copy(TAG, [Scalar(m)], Black), dirty) && p < |s.procs|
    requires e.id == 0 && s.procs[p] == Proc(Releasing, [], [e], Idle)
    ensures Runs(s, [ReadPrimary(p), ReadTag(p), TestBack(p)])
    ensures var t := After(s, [ReadPrimary(p), ReadTag(p), TestBack(p)]);
            && Stands(t, n, Copy(TAG, [Scalar(m)], Black), dirty)
            && t.procs == s.procs[p := Proc(Releasing, [], [e], Tested(TAG))]
  {
    RunThree(s, ReadPrimary(p), ReadTag(p), TestBack(p));
  }

  lemma {:induction false} Fetches(s: State, p: nat, n: int, c: Copy, dirty: set<(Id, nat)>, e: Entry)
    requires Stands(s, n, c, dirty) && p < |s.procs|
    requires e.id == 0 && e.index == 0 && s.procs[p] == Proc(Releasing, [], [e], Tested(TAG))
    ensures Runs(s, [Fetch(p)])
    ensures var t := After(s, [Fetch(p)]);
            Stands(t, n, c, dirty) && t.procs == s.procs[p := Proc(Releasing, [], [e], Storing(Scalar(n)))]
  {
    RunCons(s, Fetch(p), []);
    assert [Fetch(p)] + [] == [Fetch(p)];
  }

  /** A replay of a scanned array, up to its store. */
  lemma {:induction false} FetchesField(s: State, p: nat, n: int, m: int, dirty: set<(Id, nat)>, e: Entry)
    requires Stands(s, n, Copy(TAG, [Scalar(m)], Black), dirty) && p < |s.procs|
    requires e.id == 0 && e.index == 0 && s.procs[p] == Proc(Releasing, [], [e], Idle)
    ensures Runs(s, [ReadPrimary(p), ReadTag(p), TestBack(p)] + [Fetch(p)])
    ensures var t := After(s, [ReadPrimary(p), ReadTag(p), TestBack(p)] + [Fetch(p)]);
            && Stands(t, n, Copy(TAG, [Scalar(m)], Black), dirty)
            && t.procs == s.procs[p := Proc(Releasing, [], [e], Storing(Scalar(n)))]
  {
    hide Enabled, Apply, Runs, After;
    PassesTest(s, p, n, m, dirty, e);
    Fetches(After(s, [ReadPrimary(p), ReadTag(p), TestBack(p)]), p, n, Copy(TAG, [Scalar(m)], Black), dirty, e);
    RunAppend(s, [ReadPrimary(p), ReadTag(p), TestBack(p)], [Fetch(p)]);
  }

  lemma {:induction false} StoresField(s: State, p: nat, n: int, m: int, w: int, dirty: set<(Id, nat)>, e: Entry)
    requires Stands(s, n, Copy(TAG, [Scalar(m)], Black), dirty) && p < |s.procs|
    requires e.id == 0 && e.index == 0 && s.procs[p] == Proc(Releasing, [], [e], Storing(Scalar(w)))
    ensures Runs(s, [StoreField(p), EndRelease(p)])
    ensures var t := After(s, [StoreField(p), EndRelease(p)]);
            Stands(t, n, Copy(TAG, [Scalar(w)], Black), dirty) && t.procs == s.procs[p := IDLE]
  {
    RunTwo(s, StoreField(p), EndRelease(p));
    assert [Scalar(m)][0 := Scalar(w)] == [Scalar(w)];
    assert [e][1..] == [];
  }

  lemma {:induction false} Scanned(s: State) returns (acts: seq<Action>)
    requires s == OneArray(0, [IDLE, IDLE])
    ensures Runs(s, acts) && Stands(After(s, acts), 0, Copy(TAG, [Scalar(0)], Black), {})
    ensures After(s, acts).procs == [IDLE, IDLE]
  {
    hide Enabled, Apply, Runs, After;
    Forward(s, [IDLE, IDLE]);
    acts := [ForwardRoot(0)];
    LoadField(After(s, acts));
    RunAppend(s, acts, [ScanBegin(0), ScanLoad(0)]);
    acts := acts + [ScanBegin(0), ScanLoad(0)];
    FinishScan(After(s, acts), 0, {});
    RunAppend(s, acts, [ScanStore(0), ScanEnd(0)]);
    acts := acts + [ScanStore(0), ScanEnd(0)];
  }

  /** A write and its replay, up to the store. */
  lemma {:induction false} WritesAndFetches(s: State, p: nat, n: int, m: int, w: int, dirty: set<(Id, nat)>)
    returns (acts: seq<Action>)
    requires Stands(s, n, Copy(TAG, [Scalar(w)], Black), dirty) && p < |s.procs| && s.procs[p] == IDLE
    ensures Runs(s, acts)
    ensures Stands(After(s, acts), m, Copy(TAG, [Scalar(w)], Black), dirty + {(0, 0)})
    ensures After(s, acts).procs == s.procs[p := Proc(Releasing, [], [Logged(n, (0, 0) !in dirty)], Storing(Scalar(m)))]
  {
    hide Enabled, Apply, Runs, After;
    WriteAndRelease(s, p, n, m, Copy(TAG, [Scalar(w)], Black), dirty);
    acts := [Write(p, 0, 0, Scalar(m)), BeginRelease(p)];
    var more := [ReadPrimary(p), ReadTag(p), TestBack(p)] + [Fetch(p)];
    FetchesField(After(s, acts), p, m, w, dirty + {(0, 0)}, Logged(n, (0, 0) !in dirty));
    RunAppend(s, acts, more);
    acts := acts + more;
  }

  /** One processor fetches a field to bring its replica up to date; before it
      stores, another writes the field, releases, and stores the newer value. The
      older store lands last, and the replica keeps a value the array has lost. */
  lemma {:induction false} StaleStore(s: State) returns (acts: seq<Action>)
    requires s == OneArray(0, [IDLE, IDLE])
    ensures Init(s) && Runs(s, acts) && Quiescent(After(s, acts)) && !FlipSafe(After(s, acts))
  {
    hide Enabled, Apply, Runs, After, FlipSafe;
    acts := Scanned(s);
    var more := WritesAndFetches(After(s, acts), 0, 0, 1, 0, {});
    RunAppend(s, acts, more);
    acts := acts + more;
    more := WritesAndFetches(After(s, acts), 1, 1, 2, 0, {(0, 0)});
    RunAppend(s, acts, more);
    acts := acts + more;
    StoresField(After(s, acts), 1, 2, 0, 2, {(0, 0)}, Logged(1, false));
    RunAppend(s, acts, [StoreField(1), EndRelease(1)]);
    acts := acts + [StoreField(1), EndRelease(1)];
    StoresField(After(s, acts), 0, 2, 2, 1, {(0, 0)}, Logged(0, true));
    RunAppend(s, acts, [StoreField(0), EndRelease(0)]);
    acts := acts + [StoreField(0), EndRelease(0)];
    StaleIsUnsafe(After(s, acts), 2, 1);
  }

  // ---- a replay that dies ------------------------------------------------------------

  lemma {:induction false} StoresFirst(s: State, n: int, dirty: set<(Id, nat)>)
    requires Stands(s, n, Copy(STALL_TAG, [Primary(0)], Scanning(0, Loaded(Scalar(0)))), dirty)
    ensures Runs(s, [ScanStore(0)])
    ensures var t := After(s, [ScanStore(0)]);
            Stands(t, n, Copy(STALL_TAG, [Scalar(0)], Scanning(1, Ready)), dirty) && t.procs == s.procs
  {
    RunCons(s, ScanStore(0), []);
    assert [ScanStore(0)] + [] == [ScanStore(0)];
    assert [Primary(0)][0 := Scalar(0)] == [Scalar(0)];
  }

  lemma {:induction false} Dies(s: State, n: int, dirty: set<(Id, nat)>, e: Entry)
    requires Stands(s, n, Copy(STALL_TAG, [Scalar(0)], Scanning(1, Ready)), dirty) && |s.procs| == 1
    requires e.id == 0 && e.index == 0 && s.procs[0] == Proc(Releasing, [], [e], Idle)
    ensures Runs(s, [ReadPrimary(0), ReadTag(0), TestBack(0)] + [Fetch(0)])
    ensures var t := After(s, [ReadPrimary(0), ReadTag(0), TestBack(0)] + [Fetch(0)]);
            |t.procs| == 1 && t.procs[0].pc == Dead
  {
    RunThree(s, ReadPrimary(0), ReadTag(0), TestBack(0));
    var t := After(s, [ReadPrimary(0), ReadTag(0), TestBack(0)]);
    assert t.procs[0].pc == Tested(STALL_TAG);
    RunCons(t, Fetch(0), []);
    assert [Fetch(0)] + [] == [Fetch(0)];
    RunAppend(s, [ReadPrimary(0), ReadTag(0), TestBack(0)], [Fetch(0)]);
  }

  /** A replay that finds the stall tag of an array whose first field has been stored
      takes it for the tag of an unknown object. */
  lemma {:induction false} ReplayDies(s: State) returns (acts: seq<Action>)
    requires s == OneArray(0, [IDLE])
    ensures Init(s) && Runs(s, acts) && |After(s, acts).procs| == 1 && After(s, acts).procs[0].pc == Dead
  {
    hide Enabled, Apply, Runs, After;
    Forward(s, [IDLE]);
    acts := [ForwardRoot(0)];
    var c := Copy(STALL_TAG, [Primary(0)], Scanning(0, Loaded(Scalar(0))));
    LoadField(After(s, acts));
    RunAppend(s, acts, [ScanBegin(0), ScanLoad(0)]);
    acts := acts + [ScanBegin(0), ScanLoad(0)];
    WriteAndRelease(After(s, acts), 0, 0, 1, c, {});
    RunAppend(s, acts, [Write(0, 0, 0, Scalar(1)), BeginRelease(0)]);
    acts := acts + [Write(0, 0, 0, Scalar(1)), BeginRelease(0)];
    StoresFirst(After(s, acts), 1, {(0, 0)});
    RunAppend(s, acts, [ScanStore(0)]);
    acts := acts + [ScanStore(0)];
    Dies(After(s, acts), 1, {(0, 0)}, Logged(0, true));
    var more := [ReadPrimary(0), ReadTag(0), TestBack(0)] + [Fetch(0)];
    RunAppend(s, acts, more);
    acts := acts + more;
  }

  // ---- a pointer lost ----------------------------------------------------------------

  /** Object 0 is an array that holds the only pointer to record 1. */
  function OneEdge(procs: seq<Proc>): State {
    var heap := map[0 := Object(true, true, [Primary(1)]), 1 := Object(false, true, [])];
    State(heap, {0}, procs, map[], {0}, heap, {})
  }

  const PTAG: nat := PTR_ARRAY_TYPE + 32

  /** The mutator has loaded the pointer and overwritten it. */
  predicate Overwritten(s: State, c: Copy, proc: Proc) {
    && s.heap == map[0 := Object(true, true, [Scalar(7)]), 1 := Object(false, true, [])]
    && s.held == {0, 1} && s.roots == {} && s.procs == [proc] && s.replicas == map[0 := c]
  }

  lemma {:induction false} LoadsAndWrites(s: State)
    requires s == OneEdge([IDLE])
    ensures Runs(s, [ForwardRoot(0), Load(0, 0), Write(0, 0, 0, Scalar(7))])
    ensures Overwritten(After(s, [ForwardRoot(0), Load(0, 0), Write(0, 0, 0, Scalar(7))]),
                        Copy(PTAG, [Primary(0)], Gray), Proc(Mutating, [], [Entry(0, 0, Primary(1), true)], Idle))
  {
    RunThree(s, ForwardRoot(0), Load(0, 0), Write(0, 0, 0, Scalar(7)));
    assert [Primary(1)][0 := Scalar(7)] == [Scalar(7)];
    assert Apply(s, ForwardRoot(0)).replicas[0].fields == [Primary(0)];
    var e := Entry(0, 0, Primary(1), true);
    assert [] + [e] == [e];
  }

  lemma {:induction false} Skips(s: State, e: Entry)
    requires Overwritten(s, Copy(PTAG, [Primary(0)], Gray), Proc(Mutating, [], [e], Idle)) && e.id == 0
    ensures Runs(s, [BeginRelease(0), ReadPrimary(0)] + [ReadTag(0), TestBack(0), EndRelease(0)])
    ensures Overwritten(After(s, [BeginRelease(0), ReadPrimary(0)] + [ReadTag(0), TestBack(0), EndRelease(0)]),
                        Copy(PTAG, [Primary(0)], Gray), IDLE)
  {
    RunTwo(s, BeginRelease(0), ReadPrimary(0));
    var t := After(s, [BeginRelease(0), ReadPrimary(0)]);
    assert Overwritten(t, Copy(PTAG, [Primary(0)], Gray), Proc(Releasing, [], [e], Forwarded));
    assert [e][1..] == [];
    RunThree(t, ReadTag(0), TestBack(0), EndRelease(0));
    RunAppend(s, [BeginRelease(0), ReadPrimary(0)], [ReadTag(0), TestBack(0), EndRelease(0)]);
  }

  lemma {:induction false} ScansFirst(s: State)
    requires Overwritten(s, Copy(PTAG, [Primary(0)], Gray), IDLE)
    ensures Runs(s, [ScanBegin(0), ScanLoad(0), ScanStore(0)])
    ensures Overwritten(After(s, [ScanBegin(0), ScanLoad(0), ScanStore(0)]),
                        Copy(STALL_TAG, [Scalar(7)], Scanning(0, Stored)), IDLE)
  {
    RunThree(s, ScanBegin(0), ScanLoad(0), ScanStore(0));
    assert [Primary(0)][0 := Scalar(7)] == [Scalar(7)];
  }

  lemma {:induction false} ScansRest(s: State)
    requires Overwritten(s, Copy(STALL_TAG, [Scalar(7)], Scanning(0, Stored)), IDLE)
    ensures Runs(s, [ScanSelf(0), ScanCheck(0), ScanEnd(0)])
    ensures Overwritten(After(s, [ScanSelf(0), ScanCheck(0), ScanEnd(0)]), Copy(PTAG, [Scalar(7)], Black), IDLE)
  {
    RunThree(s, ScanSelf(0), ScanCheck(0), ScanEnd(0));
  }

  lemma LostIsUnsafe(t: State, c: Copy)
    requires Overwritten(t, c, IDLE)
    ensures !FlipSafe(t)
  {
    assert IsLive(t.heap, t.held, {0, 1});
    assert 1 !in t.replicas;
  }

  /** A mutator loads the pointer and overwrites it while the array's replica is
      gray. The replay sees the backpointer and does nothing; the scan copies the
      new value; at the flip record 1 is live, held in a root, and not replicated. */
  lemma {:induction false} PointerLost(s: State) returns (acts: seq<Action>)
    requires s == OneEdge([IDLE])
    ensures Init(s) && Runs(s, acts) && Quiescent(After(s, acts)) && !FlipSafe(After(s, acts))
  {
    hide Enabled, Apply, Runs, After, FlipSafe;
    LoadsAndWrites(s);
    acts := [ForwardRoot(0), Load(0, 0), Write(0, 0, 0, Scalar(7))];
    Skips(After(s, acts), Entry(0, 0, Primary(1), true));
    var more := [BeginRelease(0), ReadPrimary(0)] + [ReadTag(0), TestBack(0), EndRelease(0)];
    RunAppend(s, acts, more);
    acts := acts + more;
    ScansFirst(After(s, acts));
    more := [ScanBegin(0), ScanLoad(0), ScanStore(0)];
    RunAppend(s, acts, more);
    acts := acts + more;
    ScansRest(After(s, acts));
    more := [ScanSelf(0), ScanCheck(0), ScanEnd(0)];
    RunAppend(s, acts, more);
    acts := acts + more;
    LostIsUnsafe(After(s, acts), Copy(PTAG, [Scalar(7)], Black));
  }
}

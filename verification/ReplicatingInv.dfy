/** What every run of the replicating collector keeps, and what only a careful
    run does. */
module ReplicatingInv {
  import opened Tags
  import opened Replicating

  /** The snapshot a run started from: its root targets and its live primaries. */
  datatype Start = Start(roots: set<Id>, live: set<Id>)

  /** Primaries a mutator can ever get hold of. */
  function Known(s: State, b: Start): set<Id> { b.live + (s.heap.Keys - s.snap.Keys) }

  predicate SameShape(o: Object, q: Object) {
    o.isArray == q.isArray && o.traced == q.traced && |o.fields| == |q.fields|
  }

  ghost predicate Shapes(s: State, b: Start) {
    && s.snap.Keys <= s.heap.Keys && b.live <= s.snap.Keys && s.replicas.Keys <= s.heap.Keys
    && (forall id | id in s.snap :: SameShape(s.heap[id], s.snap[id]))
    && (forall id, i: nat | HasField(s.snap, id, i) && s.snap[id].traced ::
      PointsInside(s.snap[id].fields[i], s.snap.Keys))
    && b.roots <= b.live
    && IsLive(s.snap, b.roots, b.live)
  }

  /** Every word of a primary is a scalar or points at a primary. */
  ghost predicate WordsOk(s: State) {
    forall id, i: nat | HasField(s.heap, id, i) :: WordOk(s, id, s.heap[id].fields[i])
  }

  predicate WordOk(s: State, id: Id, w: Word)
    requires id in s.heap
  {
    if s.heap[id].traced then PointsInside(w, s.heap.Keys) else w.Scalar?
  }

  // ---- replicas ----------------------------------------------------------------------

  /** The scan has stored its first field: the backpointer is gone. */
  predicate Begun(c: Copy) {
    match c.phase
    case Gray => false
    case Scanning(next, scan) => next > 0 || !(scan.Ready? || scan.Loaded?)
    case Black => true
  }

  /** The scan has stored the primary's word in field `next`, and not yet what is to
      stay there. */
  predicate InField(c: Copy, i: nat) {
    c.phase.Scanning? && c.phase.next == i && !(c.phase.scan.Ready? || c.phase.scan.Loaded?)
  }

  predicate ScanOk(s: State, id: Id, scan: Scan)
    requires id in s.heap
  {
    match scan
    case Ready => true
    case Loaded(w) => WordOk(s, id, w)
    case Stored => s.heap[id].traced && s.heap[id].isArray
    case Checking => s.heap[id].traced
    case Forwarding(w) => s.heap[id].traced && w.Primary? && w.id in s.heap
    case Linking(w) => s.heap[id].traced && w.Replica?
  }

  /** A replica under way: its tag is the stall tag just while an array is scanned;
      it points back until the scan begins; no other field points at a primary but
      the one under way. */
  ghost predicate CopyOk(s: State, id: Id, c: Copy)
    requires id in s.heap
  {
    var o := s.heap[id];
    && |c.fields| == |o.fields|
    && c.tag == (if o.isArray && o.fields != [] && c.phase.Scanning? then STALL_TAG else ObjectTag(o))
    && (c.phase.Scanning? ==>
          && c.phase.next <= |o.fields| && (!c.phase.scan.Ready? ==> c.phase.next < |o.fields|)
          && ScanOk(s, id, c.phase.scan))
    && (o.fields != [] && !Begun(c) ==> c.fields[0] == Primary(id))
    && (forall i: nat | i < |c.fields| && c.fields[i].Primary? ::
          c.fields[i].id in s.heap && (InField(c, i) || (i == 0 && !Begun(c))))
  }

  ghost predicate Copies(s: State) {
    forall id | id in s.replicas :: id in s.heap && CopyOk(s, id, s.replicas[id])
  }

  // ---- replays -----------------------------------------------------------------------

  /** A processor replays only while it releases, and is past the test for the
      backpointer only if there is none. */
  ghost predicate PcOk(s: State, proc: Proc) {
    && (proc.pc != Idle ==> proc.mode == Releasing && proc.log != [])
    && (!proc.pc.Idle? && !proc.pc.Graying? ==> proc.log[0].id in s.replicas && proc.log[0].id in s.heap)
    && match proc.pc
       case Idle => true
       case Graying => true
       case Forwarded => true
       case Tagged(tag) => tag == STALL_TAG || tag == ObjectTag(s.heap[proc.log[0].id])
       case Tested(tag) =>
         (tag == STALL_TAG || tag == ObjectTag(s.heap[proc.log[0].id])) && Begun(s.replicas[proc.log[0].id])
       case Fetched(w) =>
         w.Primary? && w.id in s.heap && s.heap[proc.log[0].id].traced && Begun(s.replicas[proc.log[0].id])
       case Storing(w) => !w.Primary? && Begun(s.replicas[proc.log[0].id])
       case Dead => true
  }

  ghost predicate Pcs(s: State) {
    forall p | 0 <= p < |s.procs| :: PcOk(s, s.procs[p])
  }

  ghost predicate EntriesOk(s: State, b: Start) {
    && (forall p, k | 0 <= p < |s.procs| && 0 <= k < |s.procs[p].log| :: EntryOk(s, b, s.procs[p].log[k]))
    && (forall p, k, q, l | 0 <= p < |s.procs| && 0 <= k < |s.procs[p].log|
                            && 0 <= q < |s.procs| && 0 <= l < |s.procs[q].log| ::
          SameFirst(s.procs[p].log[k], s.procs[q].log[l]) ==> p == q && k == l)
  }

  predicate EntryOk(s: State, b: Start, e: Entry) {
    && HasField(s.heap, e.id, e.index) && s.heap[e.id].isArray
    && (if s.heap[e.id].traced then PointsInside(e.lost, Known(s, b)) else e.lost.Scalar?)
    && (e.first ==> (e.id, e.index) in s.dirty && HasField(s.snap, e.id, e.index)
                    && e.lost == s.snap[e.id].fields[e.index])
  }

  predicate SameFirst(e: Entry, f: Entry) {
    e.first && f.first && e.id == f.id && e.index == f.index
  }

  /** Fields not written since the snapshot hold what they held then. */
  ghost predicate CleanKept(s: State) {
    forall id, i: nat | id in s.snap && HasField(s.heap, id, i) && (id, i) !in s.dirty && i < |s.snap[id].fields| ::
      s.heap[id].fields[i] == s.snap[id].fields[i]
  }

  /** Mutators only ever see known primaries. */
  ghost predicate KnownClosed(s: State, b: Start) {
    && s.held <= Known(s, b)
    && forall id, i: nat | id in Known(s, b) && HasField(s.heap, id, i) ::
         if s.heap[id].traced then PointsInside(s.heap[id].fields[i], Known(s, b)) else s.heap[id].fields[i].Scalar?
  }

  predicate InYoung(s: State, id: Id) {
    exists p | 0 <= p < |s.procs| :: id in s.procs[p].young
  }

  ghost predicate YoungGuarded(s: State) {
    && (forall id | id in s.heap && id !in s.snap :: id in s.replicas || InYoung(s, id))
    && (forall p, k | 0 <= p < |s.procs| && 0 <= k < |s.procs[p].young| :: s.procs[p].young[k] in s.heap)
  }

  /** The snapshot's roots are forwarded, or will be. */
  ghost predicate RootsGuarded(s: State, b: Start) {
    forall id | id in b.roots :: id in s.roots || id in s.replicas
  }

  /** What holds in every run. */
  ghost predicate Base(s: State, b: Start) {
    && Shapes(s, b) && WordsOk(s) && Copies(s) && Pcs(s)
    && EntriesOk(s, b) && KnownClosed(s, b) && CleanKept(s) && YoungGuarded(s) && RootsGuarded(s, b)
  }

  // ---- the snapshot ------------------------------------------------------------------

  /** The scan has yet to load the field. */
  predicate Unread(c: Copy, i: nat) {
    c.phase.Gray? || (c.phase.Scanning? && (i > c.phase.next || (i == c.phase.next && c.phase.scan.Ready?)))
  }

  predicate Untouched(s: State, id: Id, i: nat) {
    && HasField(s.heap, id, i) && HasField(s.snap, id, i) && (id, i) !in s.dirty
    && (id in s.replicas ==> Unread(s.replicas[id], i))
  }

  /** The replay has fetched the field, and will look at the value lost no more. */
  predicate PastLost(pc: Pc) { pc.Fetched? || pc.Storing? }

  /** The first write to the field is logged, and its replay has yet to decide about
      the value lost. */
  predicate KeepsFirst(s: State, p: nat, k: nat, id: Id, i: nat) {
    && p < |s.procs| && k < |s.procs[p].log|
    && var e := s.procs[p].log[k];
       e.first && e.id == id && e.index == i && (k == 0 ==> !PastLost(s.procs[p].pc))
  }

  ghost predicate LoggedFirst(s: State, id: Id, i: nat) {
    exists p, k :: KeepsFirst(s, p, k, id, i)
  }

  /** A processor holds a pointer it is about to replicate the target of. */
  predicate ReplayHolds(s: State, p: nat, t: Id) {
    p < |s.procs| && s.procs[p].pc == Fetched(Primary(t))
  }

  /** The pointer a scan is about to replicate the target of. */
  function InScan(c: Copy): Word {
    if !c.phase.Scanning? then Scalar(0)
    else match c.phase.scan
      case Loaded(w) => w
      case Stored => if c.phase.next < |c.fields| then c.fields[c.phase.next] else Scalar(0)
      case Checking => if c.phase.next < |c.fields| then c.fields[c.phase.next] else Scalar(0)
      case Forwarding(w) => w
      case _ => Scalar(0)
  }

  predicate ScanHolds(s: State, id: Id, t: Id) {
    id in s.replicas && InScan(s.replicas[id]) == Primary(t)
  }

  ghost predicate InHand(s: State, t: Id) {
    (exists p :: ReplayHolds(s, p, t)) || (exists id :: ScanHolds(s, id, t))
  }

  predicate IsEdge(s: State, id: Id, i: nat) {
    HasField(s.snap, id, i) && s.snap[id].traced && s.snap[id].fields[i].Primary?
  }

  function EdgeTarget(s: State, id: Id, i: nat): Id
    requires IsEdge(s, id, i)
  {
    s.snap[id].fields[i].id
  }

  /** The target of a snapshot edge is replicated, or will be: the field still holds
      it and has yet to be loaded, or the write that lost it is logged, or someone
      holds a pointer to it. */
  ghost predicate EdgeGuarded(s: State, id: Id, i: nat)
    requires IsEdge(s, id, i)
  {
    var t := EdgeTarget(s, id, i);
    t in s.replicas || Untouched(s, id, i) || LoggedFirst(s, id, i) || InHand(s, t)
  }

  ghost predicate SnapGuarded(s: State) {
    forall id, i: nat | IsEdge(s, id, i) :: EdgeGuarded(s, id, i)
  }

  // ---- agreement ---------------------------------------------------------------------

  /** What a field of a replica holds once its scan is done, if nobody else stores
      there. */
  function Outcome(c: Copy, i: nat): Word
    requires i < |c.fields|
  {
    if c.phase.Scanning? && c.phase.next == i then
      match c.phase.scan
      case Loaded(w) => Image(w)
      case Forwarding(w) => Image(w)
      case Linking(w) => w
      case _ => Image(c.fields[i])
    else c.fields[i]
  }

  /** A logged write whose replay will store the primary's present word, unless it
      finds the backpointer. */
  predicate Due(s: State, p: nat, k: nat, id: Id, i: nat)
    requires HasField(s.heap, id, i)
  {
    && p < |s.procs| && k < |s.procs[p].log|
    && s.procs[p].log[k].id == id && s.procs[p].log[k].index == i
    && (k == 0 ==>
          match s.procs[p].pc
          case Graying => false
          case Fetched(w) => w == s.heap[id].fields[i]
          case Storing(w) => w == Image(s.heap[id].fields[i])
          case _ => true)
  }

  ghost predicate Owed(s: State, id: Id, i: nat)
    requires HasField(s.heap, id, i)
  {
    exists p, k :: Due(s, p, k, id, i)
  }

  /** A field the scan has loaded will hold what the primary's does, or some replay
      is still to store that. */
  ghost predicate FieldAgrees(s: State, id: Id, i: nat)
    requires HasField(s.heap, id, i) && id in s.replicas && i < |s.replicas[id].fields|
  {
    var c := s.replicas[id];
    Unread(c, i) || Outcome(c, i) == Image(s.heap[id].fields[i]) || Owed(s, id, i)
  }

  ghost predicate Agreement(s: State) {
    forall id, i: nat | id in s.replicas && HasField(s.heap, id, i) && i < |s.replicas[id].fields| ::
      FieldAgrees(s, id, i)
  }

  ghost predicate Inv(s: State, b: Start) {
    Base(s, b) && SnapGuarded(s) && Agreement(s)
  }

  // ---- the steps that lose it --------------------------------------------------------

  /** The replay finds the backpointer, and lets the write go. */
  predicate Drops(s: State, a: Action) {
    && a.TestBack? && Enabled(s, a)
    && s.replicas[s.procs[a.p].log[0].id].fields[0] == Primary(s.procs[a.p].log[0].id)
  }

  /** The pointer a step lets go without replicating its target: the value lost of a
      first write whose replay skips or only copies the field, or a pointer in a
      replica that the scan has yet to look at, and that is overwritten. */
  function LetGo(s: State, a: Action): Word {
    if !Enabled(s, a) then Scalar(0)
    else if Drops(s, a) then FirstLost(s, a.p)
    else if a.Fetch? && Apply(s, a).procs[a.p].pc != Dead then FirstLost(s, a.p)
    else if a.StoreField? then
      var c := s.replicas[s.procs[a.p].log[0].id];
      if c.phase.Scanning? && c.phase.next == s.procs[a.p].log[0].index
        && (c.phase.scan.Stored? || c.phase.scan.Checking?)
      then InScan(c) else Scalar(0)
    else if a.ScanSelf? && s.heap[a.id].fields[s.replicas[a.id].phase.next] == Primary(a.id) then
      InScan(s.replicas[a.id])
    else Scalar(0)
  }

  function FirstLost(s: State, p: nat): Word
    requires p < |s.procs| && s.procs[p].log != []
  {
    if s.procs[p].log[0].first then s.procs[p].log[0].lost else Scalar(0)
  }

  /** Besides the entry a step is done with, a first write to the field is logged. */
  ghost predicate OtherFirst(s: State, a: Action, id: Id, i: nat) {
    exists p, k {:trigger KeepsFirst(s, p, k, id, i)} ::
      KeepsFirst(s, p, k, id, i) && !((a.TestBack? || a.Fetch?) && a.p == p && k == 0)
  }

  /** The replica whose pointer the step overwrites. */
  predicate Overwrites(s: State, a: Action, id: Id)
    requires Enabled(s, a)
  {
    (a.StoreField? && s.procs[a.p].log[0].id == id) || (a.ScanSelf? && a.id == id)
  }

  /** Besides the pointer a step lets go, someone holds one to the target, or the step
      has just fetched one. */
  ghost predicate OtherHand(s: State, a: Action, t: Id)
    requires Enabled(s, a)
  {
    || (exists p :: ReplayHolds(s, p, t))
    || (exists id {:trigger ScanHolds(s, id, t)} :: ScanHolds(s, id, t) && !Overwrites(s, a, id))
    || (a.Fetch? && s.heap[s.procs[a.p].log[0].id].fields[s.procs[a.p].log[0].index] == Primary(t))
  }

  /** The step opens a snapshot edge: it lets a pointer go whose target has no replica,
      and nothing else guards the edge. */
  ghost predicate Opens(s: State, a: Action, id: Id, i: nat) {
    && Enabled(s, a) && IsEdge(s, id, i)
    && var t := EdgeTarget(s, id, i);
       && LetGo(s, a) == Primary(t) && t !in s.replicas
       && !Untouched(s, id, i) && !OtherFirst(s, a, id, i) && !OtherHand(s, a, t)
  }

  /** The step that loses a snapshot pointer. */
  ghost predicate Loses(s: State, a: Action) {
    exists id, i: nat :: Opens(s, a, id, i)
  }

  /** What becomes of the field when the step has let a write go or stored for it. */
  function OutcomeAfter(s: State, a: Action): Word
    requires Enabled(s, a) && (a.TestBack? || a.StoreField?)
    requires s.procs[a.p].log[0].index < |s.replicas[s.procs[a.p].log[0].id].fields|
  {
    var e := s.procs[a.p].log[0];
    var c := s.replicas[e.id];
    if a.TestBack? || (c.phase.Scanning? && c.phase.next == e.index
                       && (c.phase.scan.Loaded? || c.phase.scan.Forwarding? || c.phase.scan.Linking?))
    then Outcome(c, e.index)
    else s.procs[a.p].pc.word
  }

  /** The step that spoils a field: the last replay that would have stored the
      primary's present word is dropped or stores, and the field ends up with
      another word. */
  ghost predicate Spoils(s: State, a: Action) {
    && Enabled(s, a) && (Drops(s, a) || a.StoreField?)
    && var e := s.procs[a.p].log[0];
       && HasField(s.heap, e.id, e.index) && e.index < |s.replicas[e.id].fields|
       && !Unread(s.replicas[e.id], e.index)
       && OutcomeAfter(s, a) != Image(s.heap[e.id].fields[e.index])
       && !exists p, k {:trigger Due(s, p, k, e.id, e.index)} :: Due(s, p, k, e.id, e.index) && !(p == a.p && k == 0)
  }
}

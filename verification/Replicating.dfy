/** The concurrent replicating collector between switching on and the flip, as a
    state machine: mutators read, write and allocate primaries, processors
    replay their allocation areas and write lists, and gray replicas are scanned
    word by word, all interleaved. Loading a word, storing one and making a
    replica are steps of their own. */
module Replicating {
  import opened Tags
  import RecordTags

  type Id = nat

  /** A word of memory. The replica of a primary is unique, so it is named by
      its primary. */
  datatype Word = Scalar(n: int) | Primary(id: Id) | Replica(id: Id)

  /** An object in fromSpace: a record, which is never written again, or an array
      of pointers or of plain words. */
  datatype Object = Object(isArray: bool, traced: bool, fields: seq<Word>)

  /** The tag the compiler gives the object. */
  function ObjectTag(o: Object): nat {
    if !o.isArray then
      RecordTags.StaticTag(seq(|o.fields|, i => if o.traced then RecordTags.Traced else RecordTags.Untraced))
    else if o.traced then RecordTags.PtrArrayTag(4 * |o.fields|)
    else RecordTags.WordArrayTag(4 * |o.fields|)
  }

  /** Where the scan of one field stands: about to load the primary's word, to
      store the word loaded, to ask whether the primary points at itself, to look
      at the word in the replica, to make a replica of its target, or to store a
      pointer to that. */
  datatype Scan = Ready | Loaded(word: Word) | Stored | Checking | Forwarding(word: Word) | Linking(word: Word)

  /** How far a replica has come. While it is scanned, field `next` is under way
      and those before it are done. */
  datatype Phase = Gray | Scanning(next: nat, scan: Scan) | Black

  /** A replica: its tag word, which is the stall tag while an array is scanned,
      and its fields, the first of which is a pointer back to the primary until
      the scan overwrites it. */
  datatype Copy = Copy(tag: nat, fields: seq<Word>, phase: Phase)

  /** A write-list entry: the array, the index, and the value overwritten.
      `first` marks the first write to the field since the snapshot. */
  datatype Entry = Entry(id: Id, index: nat, lost: Word, first: bool)

  datatype Mode = Mutating | Releasing

  /** Where the replay of the first write-list entry stands: about to look for the
      array's replica, to replicate the value lost, to read the replica's tag, to
      test its first field for the backpointer, to fetch the primary's field, to
      replicate the target fetched, or to store in the replica. A tag of no array
      kills the collector. */
  datatype Pc =
    | Idle
    | Graying
    | Forwarded
    | Tagged(tag: nat)
    | Tested(tag: nat)
    | Fetched(word: Word)
    | Storing(word: Word)
    | Dead

  /** A processor: the objects it allocated and the writes it made since it last
      released, both consumed from the front while it releases. */
  datatype Proc = Proc(mode: Mode, young: seq<Id>, log: seq<Entry>, pc: Pc)

  /** `held` are the primaries in mutator roots, `roots` the targets of the
      snapshot's root locations not yet forwarded, `dirty` the fields written
      since the snapshot `snap` was taken. */
  datatype State = State(
    heap: map<Id, Object>,
    held: set<Id>,
    procs: seq<Proc>,
    replicas: map<Id, Copy>,
    roots: set<Id>,
    snap: map<Id, Object>,
    dirty: set<(Id, nat)>)

  /** What a field of the replica should hold for a field of the primary. */
  function Image(w: Word): Word {
    if w.Primary? then Replica(w.id) else w
  }

  predicate HasField(heap: map<Id, Object>, id: Id, i: nat) {
    id in heap && i < |heap[id].fields|
  }

  /** A replica as it is allocated: cleared but for the backpointer. */
  function NewCopy(id: Id, o: Object): Copy {
    Copy(ObjectTag(o), seq(|o.fields|, i => if i == 0 then Primary(id) else Scalar(0)), Gray)
  }

  /** Allocates the replica of a primary that has none. */
  function Replicate(s: State, w: Word): State {
    if w.Primary? && w.id in s.heap && w.id !in s.replicas then
      s.(replicas := s.replicas[w.id := NewCopy(w.id, s.heap[w.id])])
    else s
  }

  datatype Action =
    | Load(id: Id, index: nat)
    | Drop(id: Id)
    | Write(p: nat, id: Id, index: nat, word: Word)
    | Allocate(p: nat, id: Id, obj: Object)
    | BeginRelease(p: nat)
    | DoubleAllocate(p: nat)
    | ReadPrimary(p: nat)
    | GrayLost(p: nat)
    | ReadTag(p: nat)
    | TestBack(p: nat)
    | Fetch(p: nat)
    | ForwardFetched(p: nat)
    | StoreField(p: nat)
    | EndRelease(p: nat)
    | ForwardRoot(id: Id)
    | ScanBegin(id: Id)
    | ScanLoad(id: Id)
    | ScanStore(id: Id)
    | ScanSelf(id: Id)
    | ScanCheck(id: Id)
    | ScanForward(id: Id)
    | ScanLink(id: Id)
    | ScanEnd(id: Id)

  /** The words a mutator can write: scalars and primaries it holds. */
  predicate Writable(s: State, w: Word) {
    w.Scalar? || (w.Primary? && w.id in s.held)
  }

  predicate IsMode(s: State, p: nat, mode: Mode) {
    p < |s.procs| && s.procs[p].mode == mode && s.procs[p].pc == Idle
  }

  /** Processor `p` replays an entry of an array that has a replica. */
  predicate Replaying(s: State, p: nat) {
    p < |s.procs| && s.procs[p].log != [] && s.procs[p].log[0].id in s.replicas
  }

  predicate ScanAt(s: State, id: Id) {
    id in s.replicas && s.replicas[id].phase.Scanning?
    && HasField(s.heap, id, s.replicas[id].phase.next) && s.replicas[id].phase.next < |s.replicas[id].fields|
  }

  predicate Enabled(s: State, a: Action) {
    match a
    case Load(id, i) => id in s.held && HasField(s.heap, id, i) && s.heap[id].traced
    case Drop(id) => id in s.held
    case Write(p, id, i, w) =>
      && IsMode(s, p, Mutating)
      && id in s.held && HasField(s.heap, id, i) && s.heap[id].isArray
      && (if s.heap[id].traced then Writable(s, w) else w.Scalar?)
    case Allocate(p, id, obj) =>
      && IsMode(s, p, Mutating)
      && id !in s.heap
      && (forall w | w in obj.fields :: if obj.traced then Writable(s, w) else w.Scalar?)
    case BeginRelease(p) => IsMode(s, p, Mutating)
    case DoubleAllocate(p) => IsMode(s, p, Releasing) && s.procs[p].young != []
    case ReadPrimary(p) => IsMode(s, p, Releasing) && s.procs[p].young == [] && s.procs[p].log != []
    case GrayLost(p) => p < |s.procs| && s.procs[p].pc.Graying? && s.procs[p].log != []
    case ReadTag(p) => Replaying(s, p) && s.procs[p].pc.Forwarded?
    case TestBack(p) => Replaying(s, p) && s.procs[p].pc.Tagged? && s.replicas[s.procs[p].log[0].id].fields != []
    case Fetch(p) =>
      Replaying(s, p) && s.procs[p].pc.Tested? && HasField(s.heap, s.procs[p].log[0].id, s.procs[p].log[0].index)
    case ForwardFetched(p) => Replaying(s, p) && s.procs[p].pc.Fetched?
    case StoreField(p) =>
      && Replaying(s, p) && s.procs[p].pc.Storing?
      && s.procs[p].log[0].index < |s.replicas[s.procs[p].log[0].id].fields|
    case EndRelease(p) => IsMode(s, p, Releasing) && s.procs[p].young == [] && s.procs[p].log == []
    case ForwardRoot(id) => id in s.roots
    case ScanBegin(id) => id in s.replicas && id in s.heap && s.replicas[id].phase.Gray?
    case ScanLoad(id) => ScanAt(s, id) && s.replicas[id].phase.scan.Ready?
    case ScanStore(id) => ScanAt(s, id) && s.replicas[id].phase.scan.Loaded?
    case ScanSelf(id) => ScanAt(s, id) && s.replicas[id].phase.scan.Stored?
    case ScanCheck(id) => ScanAt(s, id) && s.replicas[id].phase.scan.Checking?
    case ScanForward(id) => ScanAt(s, id) && s.replicas[id].phase.scan.Forwarding?
    case ScanLink(id) => ScanAt(s, id) && s.replicas[id].phase.scan.Linking?
    case ScanEnd(id) =>
      && id in s.replicas && id in s.heap
      && s.replicas[id].phase == Scanning(|s.heap[id].fields|, Ready)
  }

  function SetProc(s: State, p: nat, proc: Proc): State
    requires p < |s.procs|
  {
    s.(procs := s.procs[p := proc])
  }

  function SetPc(s: State, p: nat, pc: Pc): State
    requires p < |s.procs|
  {
    SetProc(s, p, s.procs[p].(pc := pc))
  }

  /** The entry is done with. */
  function Pop(s: State, p: nat): State
    requires p < |s.procs| && s.procs[p].log != []
  {
    SetProc(s, p, s.procs[p].(log := s.procs[p].log[1..], pc := Idle))
  }

  function SetCopy(s: State, id: Id, c: Copy): State {
    s.(replicas := s.replicas[id := c])
  }

  function SetPhase(s: State, id: Id, phase: Phase): State
    requires id in s.replicas
  {
    SetCopy(s, id, s.replicas[id].(phase := phase))
  }

  /** What the replay does with the tag it has read: an array's field is fetched;
      there is no other case. */
  function AfterFetch(tag: nat, w: Word): Pc {
    if GetType(tag) == PTR_ARRAY_TYPE then (if w.Primary? then Fetched(w) else Storing(w))
    else if GetType(tag) == WORD_ARRAY_TYPE then Storing(w)
    else Dead
  }

  function ApplyReplay(s: State, a: Action): (t: State)
    requires Enabled(s, a)
    requires a.ReadPrimary? || a.GrayLost? || a.ReadTag? || a.TestBack? || a.Fetch? || a.ForwardFetched?
      || a.StoreField?
    ensures t == s.(procs := t.procs, replicas := t.replicas)
  {
    var p := a.p;
    var e := s.procs[p].log[0];
    match a
    case ReadPrimary(_) =>
      if e.id in s.replicas then SetPc(s, p, Forwarded)
      else if e.id in s.heap && s.heap[e.id].traced then SetPc(s, p, Graying)
      else Pop(s, p)
    case GrayLost(_) => Pop(Replicate(s, e.lost), p)
    case ReadTag(_) => SetPc(s, p, Tagged(s.replicas[e.id].tag))
    case TestBack(_) =>
      if s.replicas[e.id].fields[0] == Primary(e.id) then Pop(s, p) else SetPc(s, p, Tested(s.procs[p].pc.tag))
    case Fetch(_) => SetPc(s, p, AfterFetch(s.procs[p].pc.tag, s.heap[e.id].fields[e.index]))
    case ForwardFetched(_) => SetPc(Replicate(s, s.procs[p].pc.word), p, Storing(Image(s.procs[p].pc.word)))
    case StoreField(_) =>
      var c := s.replicas[e.id];
      Pop(SetCopy(s, e.id, c.(fields := c.fields[e.index := s.procs[p].pc.word])), p)
  }

  function ApplyScan(s: State, a: Action): (t: State)
    requires Enabled(s, a)
    requires a.ScanBegin? || a.ScanLoad? || a.ScanStore? || a.ScanSelf? || a.ScanCheck? || a.ScanForward?
      || a.ScanLink? || a.ScanEnd?
    ensures t == s.(replicas := t.replicas)
  {
    var id := a.id;
    var c, o := s.replicas[id], s.heap[id];
    match a
    case ScanBegin(_) =>
      SetCopy(s, id, Copy(if o.isArray && o.fields != [] then STALL_TAG else c.tag, c.fields, Scanning(0, Ready)))
    case ScanLoad(_) => SetPhase(s, id, Scanning(c.phase.next, Loaded(o.fields[c.phase.next])))
    case ScanStore(_) =>
      var k := c.phase.next;
      SetCopy(s, id, Copy(c.tag, c.fields[k := c.phase.scan.word],
                          if !o.traced then Scanning(k + 1, Ready)
                          else Scanning(k, if o.isArray then Stored else Checking)))
    case ScanSelf(_) =>
      var k := c.phase.next;
      SetPhase(s, id, Scanning(k, if o.fields[k] == Primary(id) then Linking(Replica(id)) else Checking))
    case ScanCheck(_) =>
      var k := c.phase.next;
      SetPhase(s, id, if c.fields[k].Primary? then Scanning(k, Forwarding(c.fields[k])) else Scanning(k + 1, Ready))
    case ScanForward(_) =>
      var w := c.phase.scan.word;
      var s1 := Replicate(s, w);
      SetPhase(s1, id, Scanning(c.phase.next, Linking(Image(w))))
    case ScanLink(_) =>
      var k := c.phase.next;
      SetCopy(s, id, Copy(c.tag, c.fields[k := c.phase.scan.word], Scanning(k + 1, Ready)))
    case ScanEnd(_) => SetCopy(s, id, Copy(ObjectTag(o), c.fields, Black))
  }

  function Apply(s: State, a: Action): State
    requires Enabled(s, a)
  {
    match a
    case Load(id, i) =>
      var w := s.heap[id].fields[i];
      if w.Primary? then s.(held := s.held + {w.id}) else s
    case Drop(id) => s.(held := s.held - {id})
    case Write(p, id, i, w) =>
      var o := s.heap[id];
      var e := Entry(id, i, o.fields[i], id in s.snap && (id, i) !in s.dirty);
      var proc := s.procs[p];
      s.(heap := s.heap[id := o.(fields := o.fields[i := w])],
         procs := s.procs[p := proc.(log := proc.log + [e])],
         dirty := s.dirty + {(id, i)})
    case Allocate(p, id, obj) =>
      s.(heap := s.heap[id := obj],
         held := s.held + {id},
         procs := s.procs[p := s.procs[p].(young := s.procs[p].young + [id])])
    case BeginRelease(p) => SetProc(s, p, s.procs[p].(mode := Releasing))
    case DoubleAllocate(p) =>
      var proc := s.procs[p];
      Replicate(SetProc(s, p, proc.(young := proc.young[1..])), Primary(proc.young[0]))
    case EndRelease(p) => SetProc(s, p, s.procs[p].(mode := Mutating))
    case ForwardRoot(id) => Replicate(s.(roots := s.roots - {id}), Primary(id))
    case ReadPrimary(_) => ApplyReplay(s, a)
    case GrayLost(_) => ApplyReplay(s, a)
    case ReadTag(_) => ApplyReplay(s, a)
    case TestBack(_) => ApplyReplay(s, a)
    case Fetch(_) => ApplyReplay(s, a)
    case ForwardFetched(_) => ApplyReplay(s, a)
    case StoreField(_) => ApplyReplay(s, a)
    case _ => ApplyScan(s, a)
  }

  /** The collector has just switched on, with the mutators stopped: nothing is
      replicated, and the roots of the snapshot are what the mutators hold. */
  ghost predicate Init(s: State) {
    && s.replicas == map[] && s.dirty == {} && s.snap == s.heap && s.roots == s.held
    && s.held <= s.heap.Keys
    && (forall id, i: nat | HasField(s.heap, id, i) ::
          if s.heap[id].traced then PointsInside(s.heap[id].fields[i], s.heap.Keys) else s.heap[id].fields[i].Scalar?)
    && (forall p | 0 <= p < |s.procs| :: s.procs[p] == Proc(Mutating, [], [], Idle))
  }

  predicate PointsInside(w: Word, ids: set<Id>) {
    w.Scalar? || (w.Primary? && w.id in ids)
  }

  /** The collector may be switched off: every processor has released and no
      root, gray replica or half-scanned replica is left. */
  predicate Quiescent(s: State) {
    && s.roots == {}
    && (forall id | id in s.replicas :: s.replicas[id].phase.Black?)
    && (forall p | 0 <= p < |s.procs| ::
          s.procs[p].young == [] && s.procs[p].log == [] && s.procs[p].pc == Idle)
  }

  /** A set of primaries that contains what the mutators hold and everything its
      members point at. */
  ghost predicate Closed(heap: map<Id, Object>, held: set<Id>, ids: set<Id>) {
    && held <= ids
    && forall id, i: nat | id in ids && HasField(heap, id, i) && heap[id].traced && heap[id].fields[i].Primary? ::
         heap[id].fields[i].id in ids
  }

  ghost predicate IsLive(heap: map<Id, Object>, held: set<Id>, live: set<Id>) {
    Closed(heap, held, live) && forall ids | Closed(heap, held, ids) :: live <= ids
  }

  /** What the flip needs: every live primary has a replica, and each field of
      the replica is the image of the primary's field. */
  ghost predicate FlipSafe(s: State) {
    forall live | IsLive(s.heap, s.held, live) ::
      && live <= s.replicas.Keys
      && forall id | id in live && id in s.heap ::
           && |s.replicas[id].fields| == |s.heap[id].fields|
           && forall i: nat | i < |s.heap[id].fields| :: s.replicas[id].fields[i] == Image(s.heap[id].fields[i])
  }
}

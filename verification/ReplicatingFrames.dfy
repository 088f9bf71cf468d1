/** What each step of the replicating collector changes, part by part. */
module ReplicatingFrames {
  import opened Tags
  import opened Replicating
  import opened ReplicatingInv

  predicate IsReplay(a: Action) {
    a.ReadPrimary? || a.GrayLost? || a.ReadTag? || a.TestBack? || a.Fetch? || a.ForwardFetched? || a.StoreField?
  }

  predicate IsScan(a: Action) {
    a.ScanBegin? || a.ScanLoad? || a.ScanStore? || a.ScanSelf? || a.ScanCheck? || a.ScanForward? || a.ScanLink?
      || a.ScanEnd?
  }

  // ---- primaries ---------------------------------------------------------------------

  function HeapAfter(s: State, a: Action): map<Id, Object>
    requires Enabled(s, a)
  {
    if a.Write? then s.heap[a.id := s.heap[a.id].(fields := s.heap[a.id].fields[a.index := a.word])]
    else if a.Allocate? then s.heap[a.id := a.obj]
    else s.heap
  }

  lemma HeapFrame(s: State, a: Action)
    requires Enabled(s, a)
    ensures var t := Apply(s, a);
            && t.snap == s.snap && t.heap == HeapAfter(s, a)
            && t.dirty == (if a.Write? then s.dirty + {(a.id, a.index)} else s.dirty)
  {
    hide ApplyReplay, ApplyScan, Writable, HasField;
  }

  lemma HeldFrame(s: State, a: Action)
    requires Enabled(s, a)
    ensures Apply(s, a).held == (if a.Load?
      && s.heap[a.id].fields[a.index].Primary? then s.held + {s.heap[a.id].fields[a.index].id}
                                 else if a.Drop? then s.held - {a.id}
                                 else if a.Allocate? then s.held + {a.id}
                                 else s.held)
    ensures Apply(s, a).roots == (if a.ForwardRoot? then s.roots - {a.id} else s.roots)
  {
    hide ApplyReplay, ApplyScan, Writable, HasField;
  }

  // ---- processors --------------------------------------------------------------------

  function YoungAfter(s: State, a: Action, p: nat): seq<Id>
    requires p < |s.procs| && Enabled(s, a)
  {
    var young := s.procs[p].young;
    if a.DoubleAllocate? && a.p == p then young[1..]
    else if a.Allocate? && a.p == p then young + [a.id]
    else young
  }

  function NewEntry(s: State, a: Action): Entry
    requires a.Write? && Enabled(s, a)
  {
    Entry(a.id, a.index, s.heap[a.id].fields[a.index], a.id in s.snap && (a.id, a.index) !in s.dirty)
  }

  /** The step is done with the first entry of the processor's write list. */
  predicate Pops(s: State, a: Action, p: nat)
    requires p < |s.procs| && Enabled(s, a)
  {
    && IsReplay(a) && a.p == p
    && (a.GrayLost? || a.StoreField? || Drops(s, a)
        || (a.ReadPrimary? && s.procs[p].log[0].id !in s.replicas
            && !(s.procs[p].log[0].id in s.heap && s.heap[s.procs[p].log[0].id].traced)))
  }

  function LogAfter(s: State, a: Action, p: nat): seq<Entry>
    requires p < |s.procs| && Enabled(s, a)
  {
    var log := s.procs[p].log;
    if Pops(s, a, p) then log[1..]
    else if a.Write? && a.p == p then log + [NewEntry(s, a)]
    else log
  }

  function PcAfter(s: State, a: Action, p: nat): Pc
    requires p < |s.procs| && Enabled(s, a)
  {
    var pc := s.procs[p].pc;
    if !(IsReplay(a) && a.p == p) then pc
    else if Pops(s, a, p) then Idle
    else
      var e := s.procs[p].log[0];
      match a
      case ReadPrimary(_) => if e.id in s.replicas then Forwarded else Graying
      case ReadTag(_) => Tagged(s.replicas[e.id].tag)
      case TestBack(_) => Tested(pc.tag)
      case Fetch(_) => AfterFetch(pc.tag, s.heap[e.id].fields[e.index])
      case ForwardFetched(_) => Storing(Image(pc.word))
      case _ => pc
  }

  function ModeAfter(s: State, a: Action, p: nat): Mode
    requires p < |s.procs| && Enabled(s, a)
  {
    if a.BeginRelease? && a.p == p then Releasing
    else if a.EndRelease? && a.p == p then Mutating
    else s.procs[p].mode
  }

  function ProcAfter(s: State, a: Action, p: nat): Proc
    requires p < |s.procs| && Enabled(s, a)
  {
    Proc(ModeAfter(s, a, p), YoungAfter(s, a, p), LogAfter(s, a, p), PcAfter(s, a, p))
  }

  lemma ProcFrameAt(s: State, a: Action, p: nat)
    requires Enabled(s, a) && p < |s.procs|
    ensures |Apply(s, a).procs| == |s.procs| && Apply(s, a).procs[p] == ProcAfter(s, a, p)
  {
    if IsReplay(a) {
      ReplayFrameAt(s, a, p);
    } else if IsScan(a) {
      ScanProcs(s, a);
    } else {
      hide HasField, Writable, ApplyReplay, ApplyScan;
    }
  }

  lemma ReplayFrameAt(s: State, a: Action, p: nat)
    requires Enabled(s, a) && p < |s.procs| && IsReplay(a)
    ensures |Apply(s, a).procs| == |s.procs| && Apply(s, a).procs[p] == ProcAfter(s, a, p)
  {
    hide HasField, Image, AfterFetch, ApplyScan, NewCopy;
    if a.ReadPrimary? || a.ReadTag? || a.Fetch? {
      assert ModeAfter(s, a, p) == s.procs[p].mode && YoungAfter(s, a, p) == s.procs[p].young;
    } else {
      LeftFrameAt(s, a, p);
    }
  }

  lemma LeftFrameAt(s: State, a: Action, p: nat)
    requires Enabled(s, a) && p < |s.procs| && (a.GrayLost? || a.TestBack? || a.ForwardFetched? || a.StoreField?)
    ensures |Apply(s, a).procs| == |s.procs| && Apply(s, a).procs[p] == ProcAfter(s, a, p)
  {
    hide HasField, Image, AfterFetch, ApplyScan, NewCopy;
  }

  lemma ScanProcs(s: State, a: Action)
    requires Enabled(s, a) && IsScan(a)
    ensures Apply(s, a).procs == s.procs
  {}

  /** What each step does to the processors. */
  lemma ProcFrame(s: State, a: Action)
    requires Enabled(s, a)
    ensures var t := Apply(s, a);
            |t.procs| == |s.procs| && forall p | 0 <= p < |s.procs| :: t.procs[p] == ProcAfter(s, a, p)
  {
    hide Apply, Enabled, ProcAfter;
    SameProcs(s, a);
    forall p | 0 <= p < |s.procs|
      ensures Apply(s, a).procs[p] == ProcAfter(s, a, p)
    {
      ProcFrameAt(s, a, p);
    }
  }

  lemma SameProcs(s: State, a: Action)
    requires Enabled(s, a)
    ensures |Apply(s, a).procs| == |s.procs|
  {
    if |s.procs| > 0 {
      ProcFrameAt(s, a, 0);
    } else {
      assert |Apply(s, a).procs| == 0;
    }
  }

  // ---- replicas ----------------------------------------------------------------------

  /** The word whose target a step replicates, if it has none yet. */
  function Target(s: State, a: Action): Word
    requires Enabled(s, a)
  {
    match a
    case DoubleAllocate(p) => Primary(s.procs[p].young[0])
    case ForwardRoot(id) => Primary(id)
    case GrayLost(p) => s.procs[p].log[0].lost
    case ForwardFetched(p) => s.procs[p].pc.word
    case ScanForward(id) => s.replicas[id].phase.scan.word
    case _ => Scalar(0)
  }

  predicate IsNew(s: State, a: Action, id: Id)
    requires Enabled(s, a)
  {
    Target(s, a) == Primary(id) && id in s.heap && id !in s.replicas
  }

  /** What becomes of a replica that is there before the step. */
  function CopyAfter(s: State, a: Action, id: Id): Copy
    requires Enabled(s, a) && id in s.replicas
  {
    var c := s.replicas[id];
    if a.StoreField? && s.procs[a.p].log[0].id == id then
      c.(fields := c.fields[s.procs[a.p].log[0].index := s.procs[a.p].pc.word])
    else if !(IsScan(a) && a.id == id) then c
    else
      var o := s.heap[id];
      match a
      case ScanBegin(_) => Copy(if o.isArray && o.fields != [] then STALL_TAG else c.tag, c.fields, Scanning(0, Ready))
      case ScanLoad(_) => c.(phase := Scanning(c.phase.next, Loaded(o.fields[c.phase.next])))
      case ScanStore(_) =>
        var k := c.phase.next;
        Copy(c.tag, c.fields[k := c.phase.scan.word],
             if !o.traced then Scanning(k + 1, Ready) else Scanning(k, if o.isArray then Stored else Checking))
      case ScanSelf(_) =>
        c.(phase := Scanning(c.phase.next,
                             if o.fields[c.phase.next] == Primary(id) then Linking(Replica(id)) else Checking))
      case ScanCheck(_) =>
        var k := c.phase.next;
        c.(phase := if c.fields[k].Primary? then Scanning(k, Forwarding(c.fields[k])) else Scanning(k + 1, Ready))
      case ScanForward(_) => c.(phase := Scanning(c.phase.next, Linking(Image(c.phase.scan.word))))
      case ScanLink(_) => Copy(c.tag, c.fields[c.phase.next := c.phase.scan.word], Scanning(c.phase.next + 1, Ready))
      case _ => Copy(ObjectTag(o), c.fields, Black)
  }

  /** What each step does to one replica: a new one is gray, and an old one changes
      only when it is stored to or scanned. */
  lemma CopyFrameAt(s: State, a: Action, id: Id)
    requires Enabled(s, a)
    ensures var t := Apply(s, a);
            && (id in t.replicas <==> id in s.replicas || IsNew(s, a, id))
            && (id in s.replicas ==> t.replicas[id] == CopyAfter(s, a, id))
            && (IsNew(s, a, id) ==> t.replicas[id] == NewCopy(id, s.heap[id]))
  {
    if IsReplay(a) {
      ReplayCopies(s, a, id);
    } else if IsScan(a) {
      ScanCopies(s, a, id);
    } else {
      hide ApplyReplay, ApplyScan, HasField, Writable;
    }
  }

  lemma ReplayCopies(s: State, a: Action, id: Id)
    requires Enabled(s, a) && IsReplay(a)
    ensures var t := Apply(s, a);
            && (id in t.replicas <==> id in s.replicas || IsNew(s, a, id))
            && (id in s.replicas ==> t.replicas[id] == CopyAfter(s, a, id))
            && (IsNew(s, a, id) ==> t.replicas[id] == NewCopy(id, s.heap[id]))
  {
    hide AfterFetch, NewCopy, Image, ApplyScan, HasField;
    if a.GrayLost? || a.ForwardFetched? {
    } else {
      ReplayKeepsCopies(s, a, id);
    }
  }

  lemma ReplayKeepsCopies(s: State, a: Action, id: Id)
    requires Enabled(s, a) && IsReplay(a) && !a.GrayLost? && !a.ForwardFetched?
    ensures var t := Apply(s, a);
            && (id in t.replicas <==> id in s.replicas) && !IsNew(s, a, id)
            && (id in s.replicas ==> t.replicas[id] == CopyAfter(s, a, id))
  {
    hide AfterFetch, NewCopy, Image, ApplyScan, HasField, Replicate;
  }

  lemma ScanCopies(s: State, a: Action, id: Id)
    requires Enabled(s, a) && IsScan(a)
    ensures var t := Apply(s, a);
            && (id in t.replicas <==> id in s.replicas || IsNew(s, a, id))
            && (id in s.replicas ==> t.replicas[id] == CopyAfter(s, a, id))
            && (IsNew(s, a, id) ==> t.replicas[id] == NewCopy(id, s.heap[id]))
  {
    hide NewCopy, Image, ApplyReplay, ObjectTag;
  }

  lemma CopyFrame(s: State, a: Action)
    requires Enabled(s, a)
    ensures var t := Apply(s, a);
            && (forall id :: id in t.replicas <==> id in s.replicas || IsNew(s, a, id))
            && (forall id | id in s.replicas :: t.replicas[id] == CopyAfter(s, a, id))
            && (forall id | IsNew(s, a, id) :: t.replicas[id] == NewCopy(id, s.heap[id]))
  {
    hide Apply, CopyAfter, Enabled, Target;
    forall id
      ensures var t := Apply(s, a);
              && (id in t.replicas <==> id in s.replicas || IsNew(s, a, id))
              && (id in s.replicas ==> t.replicas[id] == CopyAfter(s, a, id))
              && (IsNew(s, a, id) ==> t.replicas[id] == NewCopy(id, s.heap[id]))
    {
      CopyFrameAt(s, a, id);
    }
  }
}

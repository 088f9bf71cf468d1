/** Room synchronisation: any number of processes may be inside one room, never in
    two rooms at once. Every step of a process is one access to shared memory. */
module Rooms {
  import opened Packing
  import opened Counting

  /** Where a process is in entering and leaving. `ticket` is its place in the
      room's count of waiters. */
  datatype Pc =
    | Out
    | Spin(room: nat, ticket: nat)
    | Trying(room: nat, ticket: nat)
    | Won(room: nat, ticket: nat)
    | WonSampled(room: nat, ticket: nat, seen: nat)
    | In(room: nat)
    | Exiting(room: nat)
    | Compare(room: nat, count: nat)
    | Finalizing(room: nat)
    | Scanning(room: nat, k: nat)
    | OpenSet(room: nat)
    | Opened(room: nat, seen: nat)

  /** The shared counters, and for the record who took each ticket, who alone decides
      what happens next (or -1), how many openings of other rooms each process has
      waited through, and how often rooms were opened and finalized. */
  datatype State = State(
    which: int, cur: seq<nat>, wait: seq<nat>, prev: seq<nat>, pcs: seq<Pc>,
    who: seq<seq<nat>>, ctl: int, others: seq<nat>, opens: nat, finals: nat)
  {
    function Size(): nat { |cur| }

    predicate Shape() {
      && |cur| == |wait| == |prev| == |who| && |cur| > 0 && |pcs| == |others|
      && -1 <= which < |cur|
      && (forall i | 0 <= i < |cur| :: prev[i] <= cur[i] <= wait[i] && |who[i]| == wait[i])
      && (forall p | 0 <= p < |pcs| :: pcs[p].Out? || pcs[p].room < |cur|)
    }

    function At(p: nat, pc: Pc): State
      requires p < |pcs|
    {
      this.(pcs := pcs[p := pc])
    }
  }

  /** An opening of room `i`, seen by everyone who waits for another room. */
  function OpenSeen(s: State, i: nat): seq<nat>
    requires |s.pcs| == |s.others|
  {
    seq(|s.others|, p requires 0 <= p < |s.others| =>
      if (s.pcs[p].Spin? || s.pcs[p].Trying?) && s.pcs[p].room != i then s.others[p] + 1 else s.others[p])
  }

  /** The room looked at after `k` others, going round from the room left. */
  function NextRoom(s: State, i: nat, k: nat): (x: nat)
    requires s.Size() > 0
    ensures x < s.Size()
  {
    (i + 1 + k) % s.Size()
  }

  /** The next step of a process; only entering has a choice, of the room. */
  function Step(s: State, p: nat, room: nat): State
    requires s.Shape() && p < |s.pcs| && room < s.Size()
  {
    match s.pcs[p]
    case Out =>
      var ticket := s.wait[room] + 1;
      s.(wait := s.wait[room := ticket], who := s.who[room := s.who[room] + [p]], others := s.others[p := 0])
       .At(p, Spin(room, ticket))
    case Spin(i, t) => s.At(p, if t > s.cur[i] then Trying(i, t) else In(i))
    case Trying(i, t) =>
      if s.which == -1 then s.(which := i, others := OpenSeen(s, i), ctl := p).At(p, Won(i, t)) else s.At(p, Spin(i, t))
    case Won(i, t) => s.At(p, WonSampled(i, t, s.wait[i]))
    case WonSampled(i, t, v) => s.(cur := s.cur[i := v], opens := s.opens + 1, ctl := -1).At(p, In(i))
    case In(i) => s.At(p, Exiting(if s.which >= 0 then s.which else 0))
    case Exiting(i) =>
      s.(prev := s.prev[i := s.prev[i] + 1], ctl := if s.prev[i] + 1 == s.cur[i] then p else s.ctl)
       .At(p, Compare(i, s.prev[i] + 1))
    case Compare(i, j) => s.At(p, if j == s.cur[i] then Finalizing(i) else Out)
    case Finalizing(i) => s.(finals := s.finals + 1).At(p, Scanning(i, 0))
    case Scanning(i, k) =>
      if k >= s.Size() then s.(which := -1, ctl := -1).At(p, Out)
      else
        var x := NextRoom(s, i, k);
        if s.cur[x] < s.wait[x] then s.(which := x, others := OpenSeen(s, x)).At(p, OpenSet(x))
        else s.At(p, Scanning(i, k + 1))
    case OpenSet(i) => s.At(p, Opened(i, s.wait[i]))
    case Opened(i, v) => s.(cur := s.cur[i := v], opens := s.opens + 1, ctl := -1).At(p, Out)
  }

  function Init(n: nat, size: nat): State {
    State(-1, seq(size, i => 0), seq(size, i => 0), seq(size, i => 0), seq(n, p => Out), seq(size, i => []), -1,
          seq(n, p => 0), 0, 0)
  }

  // ---- the invariant ---------------------------------------------------------------

  /** A process that alone decides which room is next: it won an idle set of rooms, or
      was the last to leave. */
  predicate Controls(s: State, pc: Pc) {
    match pc
    case Won(_, _) => true
    case WonSampled(_, _, _) => true
    case Compare(i, j) => i < |s.cur| && j == s.cur[i]
    case Finalizing(_) => true
    case Scanning(_, _) => true
    case OpenSet(_) => true
    case Opened(_, _) => true
    case _ => false
  }

  /** Processes counted as inside a room: let in, and not yet out. */
  predicate Granted(s: State, pc: Pc, i: nat) {
    match pc
    case Spin(r, t) => r == i && i < |s.cur| && t <= s.cur[i]
    case Trying(r, t) => r == i && i < |s.cur| && t <= s.cur[i]
    case In(r) => r == i
    case Exiting(r) => r == i
    case _ => false
  }

  function GrantedSet(s: State, i: nat): set<nat> { set p | 0 <= p < |s.pcs| && Granted(s, s.pcs[p], i) }

  predicate Holds(s: State, p: nat, i: nat, t: nat) {
    i < |s.who| && 0 < t <= |s.who[i]| && s.who[i][t - 1] == p
  }

  predicate ProcOk(s: State, p: nat)
    requires s.Shape() && p < |s.pcs|
  {
    var pc := s.pcs[p];
    match pc
    case Out => true
    case Spin(i, t) => Holds(s, p, i, t)
    case Trying(i, t) => Holds(s, p, i, t)
    case Won(i, t) => Holds(s, p, i, t) && s.which == i && t > s.cur[i]
    case WonSampled(i, t, v) => Holds(s, p, i, t) && s.which == i && s.cur[i] < t <= v <= s.wait[i]
    case In(_) => true
    case Exiting(_) => true
    case Compare(i, j) => j <= s.prev[i] && (j == s.cur[i] ==> s.which == i)
    case Finalizing(i) => s.which == i
    case Scanning(i, k) => s.which == i && k <= s.Size()
    case OpenSet(i) => s.which == i && s.cur[i] < s.wait[i]
    case Opened(i, v) => s.which == i && s.cur[i] < v <= s.wait[i]
  }

  predicate WaitsFor(pc: Pc, i: nat, t: nat) {
    (pc.Spin? || pc.Trying? || pc.Won? || pc.WonSampled?) && pc.room == i && pc.ticket == t
  }

  function Holder(s: State, i: nat, t: nat): nat {
    if i < |s.who| && 0 < t <= |s.who[i]| then s.who[i][t - 1] else 0
  }

  /** Tickets not yet let in belong to processes that wait with them. */
  ghost predicate WaitersOk(s: State)
    requires s.Shape()
  {
    forall i, t {:trigger Holder(s, i, t)} | 0 <= i < s.Size() && s.cur[i] < t <= s.wait[i] ::
      Holder(s, i, t) < |s.pcs| && WaitsFor(s.pcs[Holder(s, i, t)], i, t)
  }

  ghost predicate CountsOk(s: State)
    requires s.Shape()
  {
    forall i | 0 <= i < s.Size() :: |GrantedSet(s, i)| == s.cur[i] - s.prev[i]
  }

  /** All rooms are empty while someone controls or no room is chosen; otherwise the
      chosen room alone is not. */
  ghost predicate ControlOk(s: State)
    requires s.Shape()
  {
    && -1 <= s.ctl < |s.pcs|
    && (forall p | 0 <= p < |s.pcs| :: Controls(s, s.pcs[p]) <==> p == s.ctl)
    && (forall i | 0 <= i < s.Size() :: s.prev[i] < s.cur[i] <==> i == s.which && s.ctl == -1)
  }

  /** The finalizer is yet to run for the present opening: the room is in use, or its
      last process is on the way to it. */
  predicate Unfinished(s: State) {
    if s.ctl == -1 then s.which >= 0
    else s.ctl < |s.pcs| && s.ctl >= 0 && (s.pcs[s.ctl].Compare? || s.pcs[s.ctl].Finalizing?)
  }

  /** The finalizer has run once for every opening but the present one. */
  predicate FinalsOk(s: State) { s.opens == s.finals + if Unfinished(s) then 1 else 0 }

  ghost predicate Inv(s: State) {
    && s.Shape() && (forall p | 0 <= p < |s.pcs| :: ProcOk(s, p))
    && WaitersOk(s) && CountsOk(s) && ControlOk(s) && FinalsOk(s)
  }

  // ---- one step keeps it ------------------------------------------------------------

  lemma InitInv(n: nat, size: nat)
    requires size > 0
    ensures Inv(Init(n, size))
  {
    var s := Init(n, size);
    forall i | 0 <= i < size
      ensures |GrantedSet(s, i)| == 0
    {
      assert GrantedSet(s, i) == {};
    }
  }

  /** Inside a room, that room is the chosen one and nobody controls. */
  lemma GrantedIn(s: State, p: nat, i: nat)
    requires Inv(s) && p < |s.pcs| && i < s.Size() && Granted(s, s.pcs[p], i)
    ensures s.which == i && s.ctl == -1 && s.prev[i] < s.cur[i]
  {
    assert p in GrantedSet(s, i) && |GrantedSet(s, i)| == s.cur[i] - s.prev[i];
    NonEmpty(GrantedSet(s, i), p);
  }

  lemma NonEmpty(a: set<nat>, x: nat)
    requires x in a
    ensures |a| > 0
  {}

  /** A step that only moves a process on, without changing what it counts as. */
  ghost predicate IsQuiet(s: State, p: nat, pc: Pc)
    requires s.Shape() && p < |s.pcs|
  {
    && (pc.Out? || pc.room < s.Size())
    && (forall i | 0 <= i < s.Size() :: Granted(s, s.pcs[p], i) == Granted(s, pc, i))
    && Controls(s, s.pcs[p]) == Controls(s, pc)
    && (Controls(s, pc) ==> (pc.Compare? || pc.Finalizing?) == (s.pcs[p].Compare? || s.pcs[p].Finalizing?))
    && (forall i: nat, t: nat | i < s.Size() && WaitsFor(s.pcs[p], i, t) && t > s.cur[i] :: WaitsFor(pc, i, t))
  }

  lemma Quiet(s: State, p: nat, pc: Pc)
    requires Inv(s) && p < |s.pcs| && IsQuiet(s, p, pc) && s.At(p, pc).Shape() && ProcOk(s.At(p, pc), p)
    ensures Inv(s.At(p, pc))
  {
    var t := s.At(p, pc);
    forall i | 0 <= i < s.Size()
      ensures GrantedSet(t, i) == GrantedSet(s, i)
    {}
    assert CountsOk(t);
    hide GrantedSet;
    assert ControlOk(t);
    QuietProcs(s, p, pc);
    QuietWaiters(s, p, pc);
  }

  lemma QuietProcs(s: State, p: nat, pc: Pc)
    requires Inv(s) && p < |s.pcs| && s.At(p, pc).Shape() && ProcOk(s.At(p, pc), p)
    ensures forall q | 0 <= q < |s.pcs| :: ProcOk(s.At(p, pc), q)
  {
    forall q | 0 <= q < |s.pcs|
      ensures ProcOk(s.At(p, pc), q)
    {
      assert ProcOk(s, q);
    }
  }

  lemma QuietWaiters(s: State, p: nat, pc: Pc)
    requires Inv(s) && p < |s.pcs| && s.At(p, pc).Shape() && IsQuiet(s, p, pc)
    ensures WaitersOk(s.At(p, pc))
  {
    hide Granted, Controls;
    var t := s.At(p, pc);
    forall i, k | 0 <= i < s.Size() && s.cur[i] < k <= s.wait[i]
      ensures Holder(t, i, k) < |s.pcs| && WaitsFor(t.pcs[Holder(t, i, k)], i, k)
    {
      assert Holder(t, i, k) == Holder(s, i, k);
    }
  }

  lemma SpinKeeps(s: State, p: nat)
    requires Inv(s) && p < |s.pcs| && s.pcs[p].Spin?
    ensures Inv(Step(s, p, 0))
  {
    assert ProcOk(s, p);
    hide WaitersOk, CountsOk, ControlOk, FinalsOk;
    var pc := Step(s, p, 0).pcs[p];
    Quiet(s, p, pc);
  }

  lemma TryFails(s: State, p: nat)
    requires Inv(s) && p < |s.pcs| && s.pcs[p].Trying? && s.which != -1
    ensures Inv(Step(s, p, 0))
  {
    assert ProcOk(s, p);
    hide WaitersOk, CountsOk, ControlOk, FinalsOk;
    Quiet(s, p, Step(s, p, 0).pcs[p]);
  }

  lemma WonKeeps(s: State, p: nat)
    requires Inv(s) && p < |s.pcs| && s.pcs[p].Won?
    ensures Inv(Step(s, p, 0))
  {
    assert ProcOk(s, p);
    hide WaitersOk, CountsOk, ControlOk, FinalsOk;
    Quiet(s, p, Step(s, p, 0).pcs[p]);
  }

  lemma InKeeps(s: State, p: nat)
    requires Inv(s) && p < |s.pcs| && s.pcs[p].In?
    ensures Inv(Step(s, p, 0))
  {
    GrantedIn(s, p, s.pcs[p].room);
    hide WaitersOk, CountsOk, ControlOk, FinalsOk;
    Quiet(s, p, Step(s, p, 0).pcs[p]);
  }

  lemma CompareKeeps(s: State, p: nat)
    requires Inv(s) && p < |s.pcs| && s.pcs[p].Compare?
    ensures Inv(Step(s, p, 0))
  {
    assert ProcOk(s, p);
    hide WaitersOk, CountsOk, ControlOk, FinalsOk;
    Quiet(s, p, Step(s, p, 0).pcs[p]);
  }

  lemma OpenSetKeeps(s: State, p: nat)
    requires Inv(s) && p < |s.pcs| && s.pcs[p].OpenSet?
    ensures Inv(Step(s, p, 0))
  {
    assert ProcOk(s, p);
    hide WaitersOk, CountsOk, ControlOk, FinalsOk;
    Quiet(s, p, Step(s, p, 0).pcs[p]);
  }

  lemma ScanOn(s: State, p: nat)
    requires Inv(s) && p < |s.pcs| && s.pcs[p].Scanning? && s.pcs[p].k < s.Size()
    requires var x := NextRoom(s, s.pcs[p].room, s.pcs[p].k); s.cur[x] >= s.wait[x]
    ensures Inv(Step(s, p, 0))
  {
    assert ProcOk(s, p);
    hide WaitersOk, CountsOk, ControlOk, FinalsOk;
    Quiet(s, p, Step(s, p, 0).pcs[p]);
  }

  /** Someone in control has chosen a room. */
  lemma ControlChosen(s: State)
    requires Inv(s) && s.ctl >= 0
    ensures s.which >= 0
  {
    assert ProcOk(s, s.ctl);
  }

  lemma SameCounts(s: State, t: State)
    requires s.Shape() && t.Shape() && CountsOk(s) && s.cur == t.cur && s.prev == t.prev && |s.pcs| == |t.pcs|
    requires forall q, i | 0 <= q < |s.pcs| && 0 <= i < s.Size() :: Granted(s, s.pcs[q], i) == Granted(t, t.pcs[q], i)
    ensures CountsOk(t)
  {
    forall i | 0 <= i < s.Size()
      ensures GrantedSet(t, i) == GrantedSet(s, i)
    {}
  }

  lemma TicketKeeps(s: State, p: nat, room: nat)
    requires Inv(s) && p < |s.pcs| && s.pcs[p].Out? && room < s.Size()
    ensures Inv(Step(s, p, room))
  {
    var t := Step(s, p, room);
    assert t.Shape();
    forall q | 0 <= q < |s.pcs|
      ensures ProcOk(t, q)
    {
      assert ProcOk(s, q);
    }
    SameCounts(s, t);
    assert ControlOk(t) && FinalsOk(t);
    hide CountsOk, ControlOk, FinalsOk, ProcOk;
    forall i, k | 0 <= i < t.Size() && t.cur[i] < k <= t.wait[i]
      ensures Holder(t, i, k) < |t.pcs| && WaitsFor(t.pcs[Holder(t, i, k)], i, k)
    {
      if i == room && k == t.wait[room] {
        assert Holder(t, i, k) == p;
      } else {
        assert Holder(t, i, k) == Holder(s, i, k);
      }
    }
  }

  lemma TryWins(s: State, p: nat)
    requires Inv(s) && p < |s.pcs| && s.pcs[p].Trying? && s.which == -1
    ensures Inv(Step(s, p, 0))
  {
    var t := Step(s, p, 0);
    var i := s.pcs[p].room;
    assert ProcOk(s, p);
    if s.pcs[p].ticket <= s.cur[i] {
      GrantedIn(s, p, i);
    }
    if s.ctl >= 0 {
      ControlChosen(s);
    }
    assert t.Shape();
    forall q | 0 <= q < |s.pcs|
      ensures ProcOk(t, q)
    {
      assert ProcOk(s, q);
      assert !Controls(s, s.pcs[q]);
    }
    SameCounts(s, t);
    assert ControlOk(t) && FinalsOk(t);
    SameWaiters(s, t, p);
  }

  /** Who waits is unchanged by a step of a process that keeps waiting or did not. */
  lemma SameWaiters(s: State, t: State, p: nat)
    requires s.Shape() && t.Shape() && WaitersOk(s) && |s.pcs| == |t.pcs| && p < |s.pcs|
    requires s.who == t.who && s.wait == t.wait && s.Size() == t.Size()
    requires forall i | 0 <= i < s.Size() :: s.cur[i] <= t.cur[i]
    requires forall q | 0 <= q < |s.pcs| && q != p :: s.pcs[q] == t.pcs[q]
    requires forall i: nat, k: nat | i < s.Size() && WaitsFor(s.pcs[p], i, k) && k > t.cur[i] ::
               WaitsFor(t.pcs[p], i, k)
    ensures WaitersOk(t)
  {
    forall i, k | 0 <= i < t.Size() && t.cur[i] < k <= t.wait[i]
      ensures Holder(t, i, k) < |t.pcs| && WaitsFor(t.pcs[Holder(t, i, k)], i, k)
    {
      assert Holder(t, i, k) == Holder(s, i, k);
    }
  }

  lemma LeaveKeeps(s: State, p: nat)
    requires Inv(s) && p < |s.pcs| && s.pcs[p].Exiting?
    ensures Inv(Step(s, p, 0))
  {
    var t := Step(s, p, 0);
    var i := s.pcs[p].room;
    GrantedIn(s, p, i);
    assert t.Shape();
    forall q | 0 <= q < |s.pcs|
      ensures ProcOk(t, q)
    {
      assert ProcOk(s, q);
    }
    LeaveCounts(s, p);
    assert FinalsOk(t);
    hide GrantedSet, CountsOk, FinalsOk, Granted;
    SameWaiters(s, t, p);
    forall q | 0 <= q < |s.pcs|
      ensures Controls(t, t.pcs[q]) <==> q == t.ctl
    {
      assert ProcOk(s, q);
      assert Controls(s, s.pcs[q]) <==> q == s.ctl;
    }
  }

  lemma LeaveCounts(s: State, p: nat)
    requires Inv(s) && p < |s.pcs| && s.pcs[p].Exiting? && Step(s, p, 0).Shape()
    ensures CountsOk(Step(s, p, 0))
  {
    hide WaitersOk, ControlOk, FinalsOk, ProcOk;
    var t := Step(s, p, 0);
    forall k | 0 <= k < s.Size()
      ensures |GrantedSet(t, k)| == t.cur[k] - t.prev[k]
    {
      if k == s.pcs[p].room {
        assert GrantedSet(t, k) == GrantedSet(s, k) - {p} && p in GrantedSet(s, k);
      } else {
        assert GrantedSet(t, k) == GrantedSet(s, k);
      }
    }
  }

  lemma FinalizeKeeps(s: State, p: nat)
    requires Inv(s) && p < |s.pcs| && s.pcs[p].Finalizing?
    ensures Inv(Step(s, p, 0))
  {
    hide NextRoom;
    var t := Step(s, p, 0);
    assert ProcOk(s, p);
    assert t.Shape();
    forall q | 0 <= q < |s.pcs|
      ensures ProcOk(t, q)
    {
      assert ProcOk(s, q);
    }
    SameCounts(s, t);
    SameWaiters(s, t, p);
  }

  lemma ScanEnds(s: State, p: nat)
    requires Inv(s) && p < |s.pcs| && s.pcs[p].Scanning? && s.pcs[p].k >= s.Size()
    ensures Inv(Step(s, p, 0))
  {
    hide NextRoom;
    var t := Step(s, p, 0);
    assert ProcOk(s, p);
    assert t.Shape();
    forall q | 0 <= q < |s.pcs|
      ensures ProcOk(t, q)
    {
      assert ProcOk(s, q);
      assert Controls(s, s.pcs[q]) <==> q == p;
    }
    SameCounts(s, t);
    SameWaiters(s, t, p);
  }

  lemma ScanOpens(s: State, p: nat)
    requires Inv(s) && p < |s.pcs| && s.pcs[p].Scanning? && s.pcs[p].k < s.Size()
    requires var x := NextRoom(s, s.pcs[p].room, s.pcs[p].k); s.cur[x] < s.wait[x]
    ensures Inv(Step(s, p, 0))
  {
    hide NextRoom;
    var t := Step(s, p, 0);
    assert ProcOk(s, p);
    assert t.Shape();
    forall q | 0 <= q < |s.pcs|
      ensures ProcOk(t, q)
    {
      assert ProcOk(s, q);
      assert Controls(s, s.pcs[q]) <==> q == p;
    }
    SameCounts(s, t);
    SameWaiters(s, t, p);
  }

  // ---- an opening --------------------------------------------------------------------

  function Holders(s: State, i: nat, lo: nat, hi: nat): set<nat> { set k | lo < k <= hi :: Holder(s, i, k) }

  /** Different tickets, different processes. */
  lemma HoldersCount(s: State, i: nat, lo: nat, hi: nat)
    requires s.Shape() && WaitersOk(s) && i < s.Size() && s.cur[i] == lo <= hi <= s.wait[i]
    ensures |Holders(s, i, lo, hi)| == hi - lo
    decreases hi
  {
    if hi == lo {
      assert Holders(s, i, lo, hi) == {};
    } else {
      HoldersCount(s, i, lo, hi - 1);
      forall k | lo < k < hi
        ensures Holder(s, i, k) != Holder(s, i, hi)
      {
        assert WaitsFor(s.pcs[Holder(s, i, k)], i, k) && WaitsFor(s.pcs[Holder(s, i, hi)], i, hi);
      }
      assert Holders(s, i, lo, hi) == Holders(s, i, lo, hi - 1) + {Holder(s, i, hi)};
    }
  }

  lemma OpenKeeps(s: State, p: nat, i: nat, v: nat)
    requires Inv(s) && p < |s.pcs|
    requires s.pcs[p] == Opened(i, v) || (s.pcs[p].WonSampled? && s.pcs[p].room == i && s.pcs[p].seen == v)
    ensures Inv(Step(s, p, 0))
  {
    var t := Step(s, p, 0);
    assert ProcOk(s, p) && s.ctl == p;
    assert t.Shape();
    OpenProcs(s, p, i, v);
    OpenCounts(s, p, i, v);
    OpenControl(s, p, i, v);
    SameWaiters(s, t, p);
  }

  lemma OpenProcs(s: State, p: nat, i: nat, v: nat)
    requires Inv(s) && p < |s.pcs| && s.ctl == p && s.which == i && s.cur[i] < v <= s.wait[i] && Step(s, p, 0).Shape()
    requires s.pcs[p] == Opened(i, v) || (s.pcs[p].WonSampled? && s.pcs[p].room == i && s.pcs[p].seen == v)
    ensures forall q | 0 <= q < |s.pcs| :: ProcOk(Step(s, p, 0), q)
  {
    var t := Step(s, p, 0);
    forall q | 0 <= q < |s.pcs|
      ensures ProcOk(t, q)
    {
      assert ProcOk(s, q);
      assert Controls(s, s.pcs[q]) <==> q == p;
    }
  }

  lemma OpenControl(s: State, p: nat, i: nat, v: nat)
    requires Inv(s) && p < |s.pcs| && s.ctl == p && s.which == i && s.cur[i] < v <= s.wait[i] && Step(s, p, 0).Shape()
    requires s.pcs[p] == Opened(i, v) || (s.pcs[p].WonSampled? && s.pcs[p].room == i && s.pcs[p].seen == v)
    ensures ControlOk(Step(s, p, 0)) && FinalsOk(Step(s, p, 0))
  {
    hide WaitersOk, CountsOk;
    var t := Step(s, p, 0);
    forall q | 0 <= q < |s.pcs|
      ensures !Controls(t, t.pcs[q])
    {
      assert ProcOk(s, q);
      assert Controls(s, s.pcs[q]) <==> q == p;
    }
  }

  lemma OpenCounts(s: State, p: nat, i: nat, v: nat)
    requires Inv(s) && p < |s.pcs| && s.ctl == p && s.which == i && s.cur[i] < v <= s.wait[i] && Step(s, p, 0).Shape()
    requires s.pcs[p] == Opened(i, v) || (s.pcs[p].WonSampled? && s.pcs[p].room == i && s.pcs[p].seen == v)
    ensures CountsOk(Step(s, p, 0))
  {
    var t := Step(s, p, 0);
    forall k | 0 <= k < s.Size()
      ensures |GrantedSet(t, k)| == t.cur[k] - t.prev[k]
    {
      if k == i {
        GrantedAreHolders(s, p, i, v);
        HoldersCount(s, i, s.cur[i], v);
      } else {
        assert GrantedSet(t, k) == GrantedSet(s, k);
      }
    }
  }

  /** An opening lets in exactly the holders of the tickets it covers. */
  lemma GrantedAreHolders(s: State, p: nat, i: nat, v: nat)
    requires Inv(s) && p < |s.pcs| && s.ctl == p && s.which == i && s.cur[i] < v <= s.wait[i] && Step(s, p, 0).Shape()
    requires s.pcs[p] == Opened(i, v) || (s.pcs[p].WonSampled? && s.pcs[p].room == i && s.pcs[p].seen == v)
    ensures GrantedSet(Step(s, p, 0), i) == Holders(s, i, s.cur[i], v)
  {
    var t := Step(s, p, 0);
    forall q
      ensures q in GrantedSet(t, i) <==> q in Holders(s, i, s.cur[i], v)
    {
      if q in GrantedSet(t, i) {
        assert ProcOk(s, q);
        assert !Granted(s, s.pcs[q], i) by {
          if Granted(s, s.pcs[q], i) {
            GrantedIn(s, q, i);
          }
        }
        assert Holder(s, i, s.pcs[q].ticket) == q;
      }
      if q in Holders(s, i, s.cur[i], v) {
        var k :| s.cur[i] < k <= v && q == Holder(s, i, k);
        assert WaitsFor(s.pcs[q], i, k);
        assert Controls(s, s.pcs[q]) <==> q == p;
      }
    }
  }

  /** Every step of every process keeps the invariant. */
  lemma StepInv(s: State, p: nat, room: nat)
    requires Inv(s) && p < |s.pcs| && room < s.Size()
    ensures Inv(Step(s, p, room))
  {
    assert s.Shape();
    hide Inv, Holder, GrantedSet, NextRoom;
    match s.pcs[p]
    case Out => TicketKeeps(s, p, room);
    case Spin(_, _) => SpinKeeps(s, p);
    case Trying(_, _) => if s.which == -1 { TryWins(s, p); } else { TryFails(s, p); }
    case Won(_, _) => WonKeeps(s, p);
    case WonSampled(i, _, v) => OpenKeeps(s, p, i, v);
    case In(_) => InKeeps(s, p);
    case Exiting(_) => LeaveKeeps(s, p);
    case Compare(_, _) => CompareKeeps(s, p);
    case Finalizing(_) => FinalizeKeeps(s, p);
    case Scanning(i, k) =>
      if k >= s.Size() {
        ScanEnds(s, p);
      } else if s.cur[NextRoom(s, i, k)] < s.wait[NextRoom(s, i, k)] {
        ScanOpens(s, p);
      } else {
        ScanOn(s, p);
      }
    case OpenSet(_) => OpenSetKeeps(s, p);
    case Opened(i, v) => OpenKeeps(s, p, i, v);
  }

  // ---- bounded waiting ----------------------------------------------------------------

  /** How far round room `i` lies from room `w`, a whole round for itself. */
  function Dist(m: nat, w: int, i: nat): int { if i > w then i - w else i - w + m }

  lemma NextDist(s: State, w: nat, k: nat, i: nat)
    requires w < s.Size() && k < s.Size() && i < s.Size()
    ensures var x := NextRoom(s, w, k);
            && (x == i <==> Dist(s.Size(), w, i) == k + 1)
            && (k + 1 < Dist(s.Size(), w, i) ==> Dist(s.Size(), x, i) == Dist(s.Size(), w, i) - (k + 1))
            && (x != i ==> Dist(s.Size(), x, i) <= s.Size() - 1)
  {
    Wrap(w + 1 + k, s.Size());
  }

  lemma Wrap(n: nat, m: nat)
    requires n < 2 * m
    ensures n % m == if n < m then n else n - m
  {
    if n >= m {
      DivMod(m, n - m, 1);
    }
  }

  /** A process with a ticket that no opening has covered yet. */
  predicate Waiting(s: State, p: nat)
    requires s.Shape() && p < |s.pcs|
  {
    (s.pcs[p].Spin? || s.pcs[p].Trying?) && s.pcs[p].ticket > s.cur[s.pcs[p].room]
  }

  /** The openings of other rooms that may still come before its own. */
  function Remaining(s: State, p: nat): int
    requires s.Shape() && p < |s.pcs| && s.pcs[p] != Out && s.ctl < |s.pcs|
  {
    var i, t, m := s.pcs[p].room, if s.pcs[p].Spin? || s.pcs[p].Trying? then s.pcs[p].ticket else 0, s.Size();
    if s.which == -1 then m - 1
    else if s.ctl < 0 then Dist(m, s.which, i) - 1
    else
      match s.pcs[s.ctl]
      case Scanning(w, k) => if k >= Dist(m, w, i) then m - 1 else Dist(m, w, i) - 1
      case Won(w, _) => if w == i then 0 else Dist(m, w, i) - 1
      case OpenSet(w) => if w == i then 0 else Dist(m, w, i) - 1
      case WonSampled(w, _, v) => if w == i then (if t <= v then 0 else m - 1) else Dist(m, w, i) - 1
      case Opened(w, v) => if w == i then (if t <= v then 0 else m - 1) else Dist(m, w, i) - 1
      case _ => Dist(m, s.which, i) - 1
  }

  ghost predicate WaitOk(s: State, p: nat)
    requires s.Shape() && p < |s.pcs| && s.ctl < |s.pcs|
  {
    Waiting(s, p) ==> s.others[p] + Remaining(s, p) <= s.Size() - 1
  }

  ghost predicate Waits(s: State)
    requires s.Shape() && s.ctl < |s.pcs|
  {
    forall p | 0 <= p < |s.pcs| :: WaitOk(s, p)
  }

  lemma StepWait(s: State, p: nat, room: nat, q: nat)
    requires Inv(s) && Waits(s) && p < |s.pcs| && room < s.Size() && q < |s.pcs|
    ensures var t := Step(s, p, room); t.Shape() && t.ctl < |t.pcs| && WaitOk(t, q)
  {
    if s.pcs[p].Out? {
      TicketWait(s, p, room, q);
      return;
    }
    SameRoom(s, p, room);
    hide Step, WaitOk, Inv, Waits;
    if p == s.ctl {
      ControlWait(s, p, q);
    } else {
      OtherWait(s, p, q);
    }
  }

  /** Only entering has a choice. */
  lemma SameRoom(s: State, p: nat, room: nat)
    requires s.Shape() && p < |s.pcs| && room < s.Size() && !s.pcs[p].Out?
    ensures Step(s, p, room) == Step(s, p, 0)
  {}

  lemma TicketWait(s: State, p: nat, room: nat, q: nat)
    requires Inv(s) && Waits(s) && p < |s.pcs| && room < s.Size() && q < |s.pcs| && s.pcs[p].Out?
    ensures var t := Step(s, p, room); t.Shape() && t.ctl < |t.pcs| && WaitOk(t, q)
  {
    assert WaitOk(s, q) && ProcOk(s, q);
    hide WaitersOk, CountsOk, FinalsOk;
    if s.ctl >= 0 {
      assert ProcOk(s, s.ctl) && Controls(s, s.pcs[s.ctl]);
    }
  }

  /** A step of a process not in control: only one that wins an idle set of rooms, or
      leaves last, changes what is to come. */
  lemma OtherWait(s: State, p: nat, q: nat)
    requires Inv(s) && Waits(s) && p < |s.pcs| && q < |s.pcs| && !s.pcs[p].Out? && p != s.ctl
    ensures var t := Step(s, p, 0); t.Shape() && t.ctl < |t.pcs| && WaitOk(t, q)
  {
    assert WaitOk(s, q) && ProcOk(s, p) && !Controls(s, s.pcs[p]);
    StepInv(s, p, 0);
    if s.pcs[p].Trying? && s.which == -1 {
      WinWait(s, p, q);
    } else if s.pcs[p].Exiting? {
      LeaveWait(s, p, q);
    } else {
      var t := Step(s, p, 0);
      assert t == s.At(p, t.pcs[p]);
      MoveWait(s, p, t.pcs[p], q);
    }
  }

  lemma WinWait(s: State, p: nat, q: nat)
    requires Inv(s) && Waits(s) && p < |s.pcs| && q < |s.pcs| && s.pcs[p].Trying? && s.which == -1 && Inv(Step(s, p, 0))
    ensures WaitOk(Step(s, p, 0), q)
  {
    assert WaitOk(s, q) && ProcOk(s, q);
    hide WaitersOk, CountsOk, FinalsOk;
    if s.ctl >= 0 {
      assert ProcOk(s, s.ctl) && Controls(s, s.pcs[s.ctl]);
    }
  }

  lemma LeaveWait(s: State, p: nat, q: nat)
    requires Inv(s) && Waits(s) && p < |s.pcs| && q < |s.pcs| && s.pcs[p].Exiting? && Inv(Step(s, p, 0))
    ensures WaitOk(Step(s, p, 0), q)
  {
    assert WaitOk(s, q);
    GrantedIn(s, p, s.pcs[p].room);
    hide WaitersOk, CountsOk, FinalsOk, ControlOk, ProcOk;
  }

  lemma MoveWait(s: State, p: nat, pc: Pc, q: nat)
    requires Inv(s) && Waits(s) && p < |s.pcs| && q < |s.pcs| && p != s.ctl && s.At(p, pc).Shape()
    requires q == p && (pc.Spin? || pc.Trying?) ==>
               (s.pcs[p].Spin? || s.pcs[p].Trying?) && s.pcs[p].room == pc.room && s.pcs[p].ticket == pc.ticket
    ensures WaitOk(s.At(p, pc), q)
  {
    assert WaitOk(s, q);
    hide WaitersOk, CountsOk, FinalsOk, ControlOk, ProcOk;
  }

  lemma ControlWait(s: State, p: nat, q: nat)
    requires Inv(s) && Waits(s) && p < |s.pcs| && q < |s.pcs| && p == s.ctl
    ensures var t := Step(s, p, 0); t.Shape() && t.ctl < |t.pcs| && WaitOk(t, q)
  {
    StepInv(s, p, 0);
    if s.pcs[p].Scanning? {
      ScanWait(s, p, q);
    } else {
      HoldWait(s, p, q);
    }
  }

  /** The scan comes to a room that has waiters, or goes on. */
  lemma ScanWait(s: State, p: nat, q: nat)
    requires Inv(s) && Waits(s) && p < |s.pcs| && q < |s.pcs| && p == s.ctl && s.pcs[p].Scanning? && Inv(Step(s, p, 0))
    ensures WaitOk(Step(s, p, 0), q)
  {
    assert WaitOk(s, q) && ProcOk(s, p) && ProcOk(s, q);
    hide WaitersOk, CountsOk, FinalsOk, Inv, NextRoom;
    if s.pcs[p].k < s.Size() && !s.pcs[q].Out? {
      NextDist(s, s.pcs[p].room, s.pcs[p].k, s.pcs[q].room);
    }
  }

  lemma HoldWait(s: State, p: nat, q: nat)
    requires Inv(s) && Waits(s) && p < |s.pcs| && q < |s.pcs| && p == s.ctl && !s.pcs[p].Scanning? && Inv(Step(s, p, 0))
    ensures WaitOk(Step(s, p, 0), q)
  {
    assert Controls(s, s.pcs[p]);
    if s.pcs[p].Won? || s.pcs[p].OpenSet? {
      SampleWait(s, p, q);
    } else if s.pcs[p].WonSampled? || s.pcs[p].Opened? {
      OpenWait(s, p, q);
    } else {
      FinishWait(s, p, q);
    }
  }

  /** The tickets taken are read. */
  lemma SampleWait(s: State, p: nat, q: nat)
    requires Inv(s) && Waits(s) && p < |s.pcs| && q < |s.pcs| && p == s.ctl && Inv(Step(s, p, 0))
    requires s.pcs[p].Won? || s.pcs[p].OpenSet?
    ensures WaitOk(Step(s, p, 0), q)
  {
    assert WaitOk(s, q) && ProcOk(s, p) && ProcOk(s, q);
    hide WaitersOk, CountsOk, FinalsOk, ControlOk, Inv, Waits, NextRoom;
  }

  /** The room is opened for those read. */
  lemma OpenWait(s: State, p: nat, q: nat)
    requires Inv(s) && Waits(s) && p < |s.pcs| && q < |s.pcs| && p == s.ctl && Inv(Step(s, p, 0))
    requires s.pcs[p].WonSampled? || s.pcs[p].Opened?
    ensures WaitOk(Step(s, p, 0), q)
  {
    assert WaitOk(s, q) && ProcOk(s, p) && ProcOk(s, q);
    hide WaitersOk, CountsOk, FinalsOk, ControlOk, Inv, Waits, NextRoom;
  }

  /** The last process comes to the finalizer, and from there to the scan. */
  lemma FinishWait(s: State, p: nat, q: nat)
    requires Inv(s) && Waits(s) && p < |s.pcs| && q < |s.pcs| && p == s.ctl && Inv(Step(s, p, 0))
    requires s.pcs[p].Compare? || s.pcs[p].Finalizing?
    ensures WaitOk(Step(s, p, 0), q)
  {
    assert WaitOk(s, q) && ProcOk(s, p) && ProcOk(s, q) && Controls(s, s.pcs[p]);
    hide WaitersOk, CountsOk, FinalsOk, ControlOk, Inv, Waits, NextRoom;
  }

  // ---- runs ------------------------------------------------------------------------------

  /** A schedule: which process steps, and the room it wants if it is out. */
  function Run(s: State, acts: seq<(nat, nat)>): State
    requires Inv(s) && forall k | 0 <= k < |acts| :: acts[k].0 < |s.pcs| && acts[k].1 < s.Size()
    ensures Inv(Run(s, acts)) && |Run(s, acts).pcs| == |s.pcs| && Run(s, acts).Size() == s.Size()
    decreases acts
  {
    if acts == [] then s
    else
      StepInv(s, acts[0].0, acts[0].1);
      SameSizes(s, acts[0].0, acts[0].1);
      Run(Step(s, acts[0].0, acts[0].1), acts[1..])
  }

  lemma SameSizes(s: State, p: nat, room: nat)
    requires Inv(s) && p < |s.pcs| && room < s.Size()
    ensures |Step(s, p, room).pcs| == |s.pcs| && Step(s, p, room).Size() == s.Size()
  {}

  /** The bound on waiting holds along every schedule. */
  lemma {:induction false} RunWaits(s: State, acts: seq<(nat, nat)>)
    requires Inv(s) && Waits(s) && forall k | 0 <= k < |acts| :: acts[k].0 < |s.pcs| && acts[k].1 < s.Size()
    ensures Inv(Run(s, acts)) && Waits(Run(s, acts))
    decreases acts
  {
    assert s.Shape();
    hide Inv, Waits, Step;
    if acts != [] {
      var p, room := acts[0].0, acts[0].1;
      StepInv(s, p, room);
      SameSizes(s, p, room);
      StepWaits(s, p, room);
      RunWaits(Step(s, p, room), acts[1..]);
    }
  }

  lemma StepWaits(s: State, p: nat, room: nat)
    requires Inv(s) && Waits(s) && p < |s.pcs| && room < s.Size()
    ensures var t := Step(s, p, room); t.Shape() && t.ctl < |t.pcs| && Waits(t)
  {
    StepInv(s, p, room);
    SameSizes(s, p, room);
    forall q | 0 <= q < |s.pcs|
      ensures WaitOk(Step(s, p, room), q)
    {
      StepWait(s, p, room, q);
    }
  }

  /** What rooms promise, in every state of every schedule: processes inside are all in
      the chosen room; counters are ordered; the finalizer runs alone, once for each
      opening; and a process waits through fewer openings of other rooms than there are
      rooms. */
  lemma {:induction false} RoomsAreSafe(n: nat, size: nat, acts: seq<(nat, nat)>)
    requires size > 0 && forall k | 0 <= k < |acts| :: acts[k].0 < n && acts[k].1 < size
    ensures var start := Init(n, size);
            && Inv(start)
            && var s := Run(start, acts);
               && (forall p | 0 <= p < n && (s.pcs[p].In? || s.pcs[p].Exiting?) :: s.which == s.pcs[p].room)
               && (forall i | 0 <= i < size :: s.prev[i] <= s.cur[i] <= s.wait[i])
               && (forall p, q | 0 <= p < n && 0 <= q < n && s.pcs[p].Finalizing? ::
                     !s.pcs[q].In? && !s.pcs[q].Exiting? && (s.pcs[q].Finalizing? ==> p == q))
               && s.finals <= s.opens <= s.finals + 1
               && (forall p | 0 <= p < n && Waiting(s, p) :: s.others[p] <= size - 1)
  {
    InitInv(n, size);
    var s := Run(Init(n, size), acts);
    RunWaits(Init(n, size), acts);
    forall p | 0 <= p < n && (s.pcs[p].In? || s.pcs[p].Exiting?)
      ensures s.which == s.pcs[p].room && s.ctl == -1
    {
      GrantedIn(s, p, s.pcs[p].room);
    }
    forall p | 0 <= p < n && s.pcs[p].Finalizing?
      ensures s.ctl == p
    {
      assert Controls(s, s.pcs[p]);
    }
    forall p | 0 <= p < n && Waiting(s, p)
      ensures s.others[p] <= size - 1
    {
      assert WaitOk(s, p) && ProcOk(s, p);
      if s.ctl >= 0 {
        assert ProcOk(s, s.ctl) && Controls(s, s.pcs[s.ctl]);
      }
    }
  }

  // ---- everyone gets in, and out ---------------------------------------------------------

  /** How far a process is from being out again: less for one let in than for one that
      still waits. */
  ghost function Left(s: State, pc: Pc): nat {
    var m := s.Size();
    match pc
    case Out => 0
    case Opened(_, _) => 1
    case OpenSet(_) => 2
    case Scanning(_, k) => 3 + if k <= m then m - k else 0
    case Finalizing(_) => m + 4
    case Compare(_, _) => m + 5
    case Exiting(_) => m + 6
    case In(_) => m + 7
    case WonSampled(_, _, _) => m + 10
    case Won(_, _) => m + 11
    case Trying(i, t) => if i < m && t <= s.cur[i] then m + 9 else m + 12
    case Spin(i, t) => if i < m && t <= s.cur[i] then m + 8 else m + 13
  }

  ghost function AllLeft(s: State): nat { Sum(s.pcs, pc => Left(s, pc)) }

  /** While anyone is not out, somebody's next step brings him nearer to it: the process
      in control; or one that has been let in; or, when there are none, any. */
  lemma Mover(s: State, p: nat) returns (q: nat)
    requires Inv(s) && p < |s.pcs| && !s.pcs[p].Out?
    ensures q < |s.pcs| && !s.pcs[q].Out? && s.Shape() && Left(Step(s, q, 0), Step(s, q, 0).pcs[q]) < Left(s, s.pcs[q])
  {
    if s.ctl >= 0 {
      q := s.ctl;
      ControlMoves(s);
    } else if s.which >= 0 {
      q := SomeGranted(s);
      GrantedMoves(s, q, s.which);
    } else {
      q := p;
      IdleMoves(s, p);
    }
  }

  lemma ControlMoves(s: State)
    requires Inv(s) && s.ctl >= 0
    ensures !s.pcs[s.ctl].Out? && Left(Step(s, s.ctl, 0), Step(s, s.ctl, 0).pcs[s.ctl]) < Left(s, s.pcs[s.ctl])
  {
    assert ProcOk(s, s.ctl) && Controls(s, s.pcs[s.ctl]);
    hide WaitersOk, CountsOk, ControlOk, FinalsOk;
  }

  lemma SomeGranted(s: State) returns (q: nat)
    requires Inv(s) && s.ctl == -1 && s.which >= 0
    ensures q < |s.pcs| && Granted(s, s.pcs[q], s.which)
  {
    assert |GrantedSet(s, s.which)| == s.cur[s.which] - s.prev[s.which] > 0;
    q :| q in GrantedSet(s, s.which);
  }

  lemma GrantedMoves(s: State, q: nat, i: nat)
    requires Inv(s) && s.which == i && q < |s.pcs| && Granted(s, s.pcs[q], i)
    ensures !s.pcs[q].Out? && Left(Step(s, q, 0), Step(s, q, 0).pcs[q]) < Left(s, s.pcs[q])
  {
    hide WaitersOk, CountsOk, ControlOk, FinalsOk;
  }

  lemma IdleMoves(s: State, p: nat)
    requires Inv(s) && s.ctl == -1 && s.which == -1 && p < |s.pcs| && !s.pcs[p].Out?
    ensures Left(Step(s, p, 0), Step(s, p, 0).pcs[p]) < Left(s, s.pcs[p])
  {
    var i := s.pcs[p].room;
    if Granted(s, s.pcs[p], i) {
      GrantedIn(s, p, i);
    }
    assert !Controls(s, s.pcs[p]);
    hide WaitersOk, CountsOk, ControlOk, FinalsOk;
  }

  /** Nobody else's way gets longer. */
  lemma OthersLeft(s: State, p: nat, q: nat)
    requires Inv(s) && p < |s.pcs| && q < |s.pcs| && q != p && !s.pcs[p].Out?
    ensures var t := Step(s, p, 0); t.pcs[q] == s.pcs[q] && Left(t, t.pcs[q]) <= Left(s, s.pcs[q])
  {
    assert ProcOk(s, p);
    hide WaitersOk, CountsOk, ControlOk, FinalsOk;
  }

  /** The step of the one that moves brings the end nearer for all of them. */
  lemma AllNearer(s: State, p: nat)
    requires Inv(s) && p < |s.pcs| && !s.pcs[p].Out?
    requires Left(Step(s, p, 0), Step(s, p, 0).pcs[p]) < Left(s, s.pcs[p])
    ensures AllLeft(Step(s, p, 0)) < AllLeft(s)
  {
    var t := Step(s, p, 0);
    SameSizes(s, p, 0);
    forall q | 0 <= q < |s.pcs|
      ensures Left(t, t.pcs[q]) <= Left(s, s.pcs[q])
    {
      if q != p {
        OthersLeft(s, p, q);
      }
    }
    hide Left, Inv, Step;
    SumFalls(s.pcs, t.pcs, pc => Left(s, pc), pc => Left(t, pc), p);
  }

  /** In every reachable state a process that waits can be brought into the room it waits
      for, if those inside leave and nobody else comes. */
  lemma {:induction false} CanEnter(s: State, p: nat) returns (acts: seq<(nat, nat)>)
    requires Inv(s) && p < |s.pcs|
    requires s.pcs[p].Spin? || s.pcs[p].Trying? || s.pcs[p].Won? || s.pcs[p].WonSampled?
    ensures forall k | 0 <= k < |acts| :: acts[k].0 < |s.pcs| && acts[k].1 < s.Size()
    ensures Run(s, acts).pcs[p] == In(s.pcs[p].room)
    decreases AllLeft(s)
  {
    var q := Mover(s, p);
    var t := Step(s, q, 0);
    AllNearer(s, q);
    StepInv(s, q, 0);
    SameSizes(s, q, 0);
    if q != p {
      OthersLeft(s, q, p);
    }
    assert s.Size() > 0;
    var rest := [];
    if t.pcs[p] != In(s.pcs[p].room) {
      rest := CanEnter(t, p);
    }
    acts := [(q, 0)] + rest;
    assert acts[0] == (q, 0) && acts[1..] == rest;
    hide Inv, Step;
  }

  /** In every reachable state all processes can get out again, whoever waits. */
  lemma {:induction false} CanLeave(s: State) returns (acts: seq<(nat, nat)>)
    requires Inv(s)
    ensures forall k | 0 <= k < |acts| :: acts[k].0 < |s.pcs| && acts[k].1 < s.Size()
    ensures forall p | 0 <= p < |s.pcs| :: Run(s, acts).pcs[p].Out?
    decreases AllLeft(s)
  {
    acts := [];
    assert s.Size() > 0;
    if p: nat :| p < |s.pcs| && !s.pcs[p].Out? {
      var q := Mover(s, p);
      AllNearer(s, q);
      StepInv(s, q, 0);
      SameSizes(s, q, 0);
      hide Inv, Step, AllLeft;
      var rest := CanLeave(Step(s, q, 0));
      acts := [(q, 0)] + rest;
      assert acts[0] == (q, 0) && acts[1..] == rest;
    }
  }

  // ---- what the records record -------------------------------------------------------------

  /** A process wins an idle set of rooms, or chooses the next room when it leaves last. */
  predicate Opens(s: State, p: nat, room: nat)
    requires s.Shape() && p < |s.pcs| && room < s.Size()
  {
    var now := Step(s, p, room).pcs;
    p < |now| && ((s.pcs[p].Trying? && now[p].Won?) || (s.pcs[p].Scanning? && now[p].OpenSet?))
  }

  /** Openings, along a schedule, of rooms other than the one `q` waits for. */
  ghost function OtherOpenings(s: State, acts: seq<(nat, nat)>, q: nat): nat
    requires Inv(s) && q < |s.pcs| && forall k | 0 <= k < |acts| :: acts[k].0 < |s.pcs| && acts[k].1 < s.Size()
    decreases acts
  {
    if acts == [] then 0
    else
      var (p, room) := acts[0];
      var t := Step(s, p, room);
      StepInv(s, p, room);
      SameSizes(s, p, room);
      (if Opens(s, p, room) && !s.pcs[q].Out? && t.which != s.pcs[q].room then 1 else 0)
      + OtherOpenings(t, acts[1..], q)
  }

  /** Along the whole schedule `q` waits, no opening having covered its ticket. */
  ghost predicate WaitsAlong(s: State, acts: seq<(nat, nat)>, q: nat)
    requires Inv(s) && q < |s.pcs| && forall k | 0 <= k < |acts| :: acts[k].0 < |s.pcs| && acts[k].1 < s.Size()
    decreases acts
  {
    Waiting(s, q) &&
    (acts == [] ||
     (StepInv(s, acts[0].0, acts[0].1);
      SameSizes(s, acts[0].0, acts[0].1);
      WaitsAlong(Step(s, acts[0].0, acts[0].1), acts[1..], q)))
  }

  lemma OpeningSeen(s: State, p: nat, room: nat, q: nat)
    requires Inv(s) && p < |s.pcs| && room < s.Size() && q < |s.pcs| && Waiting(s, q)
    requires Step(s, p, room).Shape() && q < |Step(s, p, room).pcs| && Waiting(Step(s, p, room), q)
    ensures var t := Step(s, p, room);
            t.others[q] == s.others[q] + if Opens(s, p, room) && t.which != s.pcs[q].room then 1 else 0
  {
    ShapeOf(s);
    hide Inv, NextRoom;
    OthersAfter(s, p, room, q);
  }

  lemma OthersAfter(s: State, p: nat, room: nat, q: nat)
    requires s.Shape() && p < |s.pcs| && room < s.Size() && q < |s.pcs| && (s.pcs[q].Spin? || s.pcs[q].Trying?)
    ensures var t := Step(s, p, room);
            |t.others| == |s.others| &&
            t.others[q] == s.others[q] + if Opens(s, p, room) && t.which != s.pcs[q].room then 1 else 0
  {
    hide NextRoom;
  }

  lemma {:induction false} OpeningsSeen(s: State, acts: seq<(nat, nat)>, q: nat)
    requires Inv(s) && q < |s.pcs| && forall k | 0 <= k < |acts| :: acts[k].0 < |s.pcs| && acts[k].1 < s.Size()
    requires WaitsAlong(s, acts, q)
    ensures Run(s, acts).others[q] == s.others[q] + OtherOpenings(s, acts, q)
    ensures Waiting(Run(s, acts), q)
    decreases acts
  {
    hide Inv, Step, Waiting, Opens;
    if acts != [] {
      StepInv(s, acts[0].0, acts[0].1);
      SameSizes(s, acts[0].0, acts[0].1);
      ShapeOf(s);
      var t := Step(s, acts[0].0, acts[0].1);
      ShapeOf(t);
      OpeningsSeen(t, acts[1..], q);
      assert WaitsAlong(t, acts[1..], q);
      assert Waiting(t, q);
      OpeningSeen(s, acts[0].0, acts[0].1, q);
      NotOut(s, q);
    }
  }

  lemma ShapeOf(s: State)
    requires Inv(s)
    ensures s.Shape()
  {}

  lemma NotOut(s: State, q: nat)
    requires s.Shape() && q < |s.pcs| && Waiting(s, q)
    ensures !s.pcs[q].Out?
  {}

  /** However the processes are scheduled, while one of them waits other rooms than its own
      are opened fewer times than there are rooms. */
  lemma {:induction false} WaitIsBounded(n: nat, size: nat, before: seq<(nat, nat)>, acts: seq<(nat, nat)>, q: nat)
    requires size > 0 && q < n && (forall k | 0 <= k < |before| :: before[k].0 < n && before[k].1 < size)
    requires forall k | 0 <= k < |acts| :: acts[k].0 < n && acts[k].1 < size
    requires Inv(Init(n, size)) && WaitsAlong(Run(Init(n, size), before), acts, q)
    ensures OtherOpenings(Run(Init(n, size), before), acts, q) <= size - 1
  {
    var s := Run(Init(n, size), before);
    StartWaits(n, size);
    RunWaits(Init(n, size), before);
    RunWaits(s, acts);
    OpeningsSeen(s, acts, q);
    var t := Run(s, acts);
    assert WaitOk(t, q);
    RemainingNat(t, q);
  }

  lemma StartWaits(n: nat, size: nat)
    requires size > 0
    ensures Inv(Init(n, size)) && Waits(Init(n, size))
  {
    InitInv(n, size);
  }

  lemma RemainingNat(s: State, q: nat)
    requires Inv(s) && q < |s.pcs| && Waiting(s, q) && s.ctl < |s.pcs|
    ensures Remaining(s, q) >= 0
  {
    assert ProcOk(s, q);
    if s.ctl >= 0 {
      assert ProcOk(s, s.ctl) && Controls(s, s.pcs[s.ctl]);
    }
    hide WaitersOk, CountsOk, FinalsOk;
  }

  /** How often, along a schedule, processes are let in by moving a counter, and how often
      the finalizer is run. */
  ghost function Admissions(s: State, acts: seq<(nat, nat)>): (r: (nat, nat))
    requires Inv(s) && forall k | 0 <= k < |acts| :: acts[k].0 < |s.pcs| && acts[k].1 < s.Size()
    decreases acts
  {
    if acts == [] then (0, 0)
    else
      var (p, room) := acts[0];
      var t := Step(s, p, room);
      StepInv(s, p, room);
      SameSizes(s, p, room);
      var rest := Admissions(t, acts[1..]);
      (rest.0 + (if t.cur != s.cur then 1 else 0), rest.1 + if s.pcs[p].Finalizing? then 1 else 0)
  }

  lemma AdmissionSeen(s: State, p: nat, room: nat)
    requires Inv(s) && p < |s.pcs| && room < s.Size()
    ensures var t := Step(s, p, room);
            && t.opens == s.opens + (if t.cur != s.cur then 1 else 0)
            && t.finals == s.finals + if s.pcs[p].Finalizing? then 1 else 0
  {
    assert ProcOk(s, p);
    hide WaitersOk, CountsOk, ControlOk, FinalsOk, NextRoom;
  }

  lemma {:induction false} AdmissionsSeen(s: State, acts: seq<(nat, nat)>)
    requires Inv(s) && forall k | 0 <= k < |acts| :: acts[k].0 < |s.pcs| && acts[k].1 < s.Size()
    ensures Run(s, acts).opens == s.opens + Admissions(s, acts).0
    ensures Run(s, acts).finals == s.finals + Admissions(s, acts).1
    decreases acts
  {
    if acts != [] {
      AdmissionSeen(s, acts[0].0, acts[0].1);
      StepInv(s, acts[0].0, acts[0].1);
      SameSizes(s, acts[0].0, acts[0].1);
      ShapeOf(s);
      hide Inv, Step;
      AdmissionsSeen(Step(s, acts[0].0, acts[0].1), acts[1..]);
    }
  }

  /** In every schedule the finalizer is run once for each time processes are let in, but
      for the last of them it may be yet to run. */
  lemma {:induction false} FinalizedOnce(n: nat, size: nat, acts: seq<(nat, nat)>)
    requires size > 0 && forall k | 0 <= k < |acts| :: acts[k].0 < n && acts[k].1 < size
    requires Inv(Init(n, size))
    ensures var (lets, finals) := Admissions(Init(n, size), acts); finals <= lets <= finals + 1
  {
    AdmissionsSeen(Init(n, size), acts);
    var s := Run(Init(n, size), acts);
    FinalsOf(s);
  }

  lemma FinalsOf(s: State)
    requires Inv(s)
    ensures s.finals <= s.opens <= s.finals + 1
  {}
}

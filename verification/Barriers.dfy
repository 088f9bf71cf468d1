/** Cyclic barriers. Processors pass the same sequence of strong and weak barriers;
    `phase` counters are used in turn, and those before a strong barrier are cleared
    by whoever leaves it. Every step is one access to shared memory. */
module Barriers {
  import opened Counting
  import opened Packing

  /** The number of processors and of counters, and which barriers are strong. */
  datatype Config = Config(n: nat, phase: nat, strong: nat -> bool) {
    ghost predicate IsStrong(x: int) { x >= 0 && strong(x) }

    /** Behind every strong barrier, and behind the start, two more strong ones come
        within a round of the counters. */
    ghost predicate Spaced() {
      forall a: int {:trigger TwoWithin(a)} | a == -1 || IsStrong(a) :: TwoWithin(a)
    }

    ghost predicate TwoWithin(a: int) {
      exists b, c :: a < b < c < a + phase && IsStrong(b) && IsStrong(c)
    }
  }

  /** Leaving a strong barrier: spinning on its counter, then clearing counters from the
      last barrier used up to its own. `y` is the barrier whose counter is cleared. */
  datatype Pc = Free | Spin | Passed | Clearing(i: nat, y: int)

  /** A processor: how many barriers it has arrived at, and the place it was given at
      the last of them. */
  datatype Proc = Proc(pos: nat, pc: Pc, index: int)

  /** For the record, `log` lists who has arrived at each barrier, `last` is the last
      strong barrier all have arrived at, and `prev` the strong one before it. */
  datatype State = State(
    counters: seq<int>,
    lastUsed: nat,
    procs: seq<Proc>,
    log: map<nat, seq<nat>>,
    prev: int,
    last: int)

  function LogAt(s: State, x: int): seq<nat> { if x >= 0 && x in s.log then s.log[x] else [] }

  function Slot(cfg: Config, x: int): (i: nat)
    requires cfg.phase > 0
    ensures i < cfg.phase
  {
    x % cfg.phase
  }

  function Init(cfg: Config): State
    requires cfg.phase > 0
  {
    State(seq(cfg.phase, i => 0), cfg.phase - 1, seq(cfg.n, p => Proc(0, Free, -1)), map[], -1, -1)
  }

  predicate Shape(cfg: Config, s: State) {
    && cfg.phase > 0 && |s.counters| == cfg.phase && |s.procs| == cfg.n && s.lastUsed < cfg.phase
    && forall p | 0 <= p < cfg.n :: s.procs[p].pc.Clearing? ==> s.procs[p].pc.i < cfg.phase
  }

  /** Arriving: the counter is fetched and raised. */
  function Arrive(cfg: Config, s: State, p: nat): State
    requires Shape(cfg, s) && p < cfg.n
  {
    var x := s.procs[p].pos;
    var i := Slot(cfg, x);
    var log := LogAt(s, x) + [p];
    var all := cfg.strong(x) && |log| == cfg.n;
    s.(counters := s.counters[i := s.counters[i] + 1],
       procs := s.procs[p := Proc(x + 1, if cfg.strong(x) then Spin else Free, s.counters[i])],
       log := s.log[x := log],
       prev := if all then s.last else s.prev,
       last := if all then x else s.last)
  }

  /** The next step of a processor. */
  function Step(cfg: Config, s: State, p: nat): State
    requires Shape(cfg, s) && p < cfg.n
  {
    var proc := s.procs[p];
    var which := Slot(cfg, proc.pos - 1);
    match proc.pc
    case Free => Arrive(cfg, s, p)
    case Spin => if s.counters[which] < cfg.n then s else s.(procs := s.procs[p := proc.(pc := Passed)])
    case Passed =>
      var y := if s.lastUsed == Slot(cfg, s.last) then s.last else s.prev;
      s.(procs := s.procs[p := proc.(pc := Clearing(s.lastUsed, y))])
    case Clearing(i, y) =>
      if i != which then
        s.(counters := s.counters[i := 0], procs := s.procs[p := proc.(pc := Clearing((i + 1) % cfg.phase, y + 1))])
      else s.(lastUsed := which, procs := s.procs[p := proc.(pc := Free)])
  }

  // ---- the invariant -------------------------------------------------------------------

  /** Nobody is before the last complete strong barrier or behind the next one, and
      whoever has arrived at the next one waits there. */
  ghost predicate ProcOk(cfg: Config, s: State, p: nat)
    requires Shape(cfg, s) && p < cfg.n
  {
    var proc := s.procs[p];
    && s.last <= proc.pos - 1
    && (forall x: int | s.last < x < proc.pos - 1 :: !cfg.IsStrong(x))
    && (s.last < proc.pos - 1 && cfg.IsStrong(proc.pos - 1) ==> proc.pc == Spin)
    && (proc.pc.Spin? ==> cfg.IsStrong(proc.pos - 1))
    && (proc.pc.Passed? || proc.pc.Clearing? ==> proc.pos - 1 == s.last >= 0)
    && (proc.pc.Free? || proc.pos - 1 > s.last ==> s.lastUsed == Slot(cfg, s.last))
    && (proc.pc.Clearing? ==>
      s.prev <= proc.pc.y <= s.last && proc.pc.i == Slot(cfg, proc.pc.y) && Cleared(cfg, s, proc.pc.y))
    && (proc.pos > 0 ==> 0 <= proc.index < |LogAt(s, proc.pos - 1)| && LogAt(s, proc.pos - 1)[proc.index] == p)
  }

  /** The counters from the previous strong barrier up to `y` are zero. */
  ghost predicate Cleared(cfg: Config, s: State, y: int)
    requires Shape(cfg, s)
  {
    forall x: int | s.prev <= x < y :: s.counters[Slot(cfg, x)] == 0
  }

  /** Exactly those who have gone on are in a barrier's record, once. */
  ghost predicate LogOk(cfg: Config, s: State, x: int)
    requires Shape(cfg, s)
  {
    && Distinct(LogAt(s, x)) && (forall p | p in LogAt(s, x) :: p < cfg.n)
    && (x >= 0 ==> forall p | 0 <= p < cfg.n :: p in LogAt(s, x) <==> s.procs[p].pos > x)
    && (cfg.IsStrong(x) && x > s.last ==> |LogAt(s, x)| < cfg.n)
  }

  /** A counter in the current round: the number of arrivals; before the last strong
      barrier it may have been cleared. */
  ghost predicate CounterOk(cfg: Config, s: State, x: int)
    requires Shape(cfg, s)
  {
    || s.counters[Slot(cfg, x)] == |LogAt(s, x)|
    || (x < s.last && s.counters[Slot(cfg, x)] == 0)
  }

  ghost predicate LastOk(cfg: Config, s: State)
    requires Shape(cfg, s)
  {
    && -1 <= s.prev <= s.last && (s.prev == s.last ==> s.last == -1)
    && (s.prev == -1 || cfg.IsStrong(s.prev)) && (s.last == -1 || cfg.IsStrong(s.last))
    && (forall x: int | s.prev < x < s.last :: !cfg.IsStrong(x))
    && (s.lastUsed == Slot(cfg, s.prev) || s.lastUsed == Slot(cfg, s.last))
    && (s.lastUsed == Slot(cfg, s.last) ==> Cleared(cfg, s, s.last))
    && (s.last >= 0 ==> |LogAt(s, s.last)| == cfg.n)
  }

  ghost predicate Inv(cfg: Config, s: State) {
    && Shape(cfg, s) && cfg.n > 0 && LastOk(cfg, s)
    && (forall p | 0 <= p < cfg.n :: ProcOk(cfg, s, p))
    && (forall x: int :: LogOk(cfg, s, x))
    && (forall x: int | s.prev <= x < s.prev + cfg.phase :: CounterOk(cfg, s, x))
  }

  lemma InitInv(cfg: Config)
    requires cfg.n > 0 && cfg.phase > 0
    ensures Inv(cfg, Init(cfg))
  {
    var s := Init(cfg);
    assert Slot(cfg, -1) == cfg.phase - 1 by {
      DivMod(cfg.phase, cfg.phase - 1, 0);
      ModUp(cfg, -1);
    }
  }

  // ---- slots -------------------------------------------------------------------------------

  lemma ModUp(cfg: Config, x: int)
    requires cfg.phase > 0
    ensures Slot(cfg, x + cfg.phase) == Slot(cfg, x)
  {
    ModInt(cfg.phase, x % cfg.phase, x / cfg.phase + 1);
    assert x + cfg.phase == cfg.phase * (x / cfg.phase + 1) + x % cfg.phase;
  }

  /** Positions less than a round apart have different counters. */
  lemma SlotNear(cfg: Config, x: int, y: int)
    requires cfg.phase > 0 && x - y < cfg.phase && y - x < cfg.phase
    ensures Slot(cfg, x) == Slot(cfg, y) ==> x == y
  {
    ModNear(cfg.phase, x, y);
  }

  lemma SlotNext(cfg: Config, y: int)
    requires cfg.phase > 0
    ensures (Slot(cfg, y) + 1) % cfg.phase == Slot(cfg, y + 1)
  {
    ModNext(cfg.phase, y);
    if y % cfg.phase + 1 < cfg.phase {
      ModInt(cfg.phase, y % cfg.phase + 1, 0);
    } else {
      ModInt(cfg.phase, 0, 1);
    }
  }

  // ---- leaving a strong barrier --------------------------------------------------------

  /** The counters of the last two strong barriers and what lies between them belong to
      the current round. */
  lemma LastInRound(cfg: Config, s: State)
    requires Shape(cfg, s) && LastOk(cfg, s) && cfg.Spaced()
    ensures s.last < s.prev + cfg.phase
  {
    hide Slot, Cleared;
    assert cfg.TwoWithin(s.prev);
    var b, c :| s.prev < b < c < s.prev + cfg.phase && cfg.IsStrong(b) && cfg.IsStrong(c);
    assert !(s.prev < b < s.last);
  }

  /** Nobody runs a round ahead. */
  lemma PosInRound(cfg: Config, s: State, p: nat)
    requires Shape(cfg, s) && LastOk(cfg, s) && cfg.Spaced() && p < cfg.n && ProcOk(cfg, s, p)
    ensures s.procs[p].pos - 1 < s.prev + cfg.phase
    ensures s.procs[p].pc == Free ==> s.procs[p].pos < s.prev + cfg.phase
  {
    hide Slot, Cleared, LogAt;
    assert cfg.TwoWithin(s.prev);
    var b, c :| s.prev < b < c < s.prev + cfg.phase && cfg.IsStrong(b) && cfg.IsStrong(c);
    var x := s.procs[p].pos - 1;
    assert !(s.prev < b < s.last);
    assert !(s.last < c < x);
    assert s.last < x && cfg.IsStrong(x) ==> s.procs[p].pc == Spin;
    assert c == x ==> s.procs[p].pc == Spin;
  }

  /** A processor sees a strong barrier's counter full only when all have arrived, and
      then the counter is exactly full until everyone has left. */
  lemma SpinSees(cfg: Config, s: State, p: nat)
    requires Inv(cfg, s) && cfg.Spaced() && p < cfg.n && s.procs[p].pc != Free && s.procs[p].pos > 0
    requires s.procs[p].pc.Spin? ==> s.counters[Slot(cfg, s.procs[p].pos - 1)] >= cfg.n
    ensures s.procs[p].pos - 1 == s.last && s.counters[Slot(cfg, s.last)] == cfg.n
  {
    var x := s.procs[p].pos - 1;
    assert ProcOk(cfg, s, p) && LogOk(cfg, s, x);
    LastInRound(cfg, s);
    PosInRound(cfg, s, p);
    assert CounterOk(cfg, s, x);
    hide Slot, Cleared, Inv;
  }

  // ---- one step keeps the invariant ----------------------------------------------------

  /** A step that only moves a processor on within leaving a barrier. */
  lemma Moves(cfg: Config, s: State, p: nat, pc: Pc)
    requires Inv(cfg, s) && p < cfg.n
    requires var t := s.(procs := s.procs[p := s.procs[p].(pc := pc)]); Shape(cfg, t) && ProcOk(cfg, t, p)
    ensures Inv(cfg, s.(procs := s.procs[p := s.procs[p].(pc := pc)]))
  {
    hide Slot;
    var t := s.(procs := s.procs[p := s.procs[p].(pc := pc)]);
    assert LastOk(cfg, t);
    forall q | 0 <= q < cfg.n
      ensures ProcOk(cfg, t, q)
    {
      assert ProcOk(cfg, s, q);
    }
    hide ProcOk;
    forall x: int
      ensures LogOk(cfg, t, x)
    {
      assert LogOk(cfg, s, x);
    }
    hide LogOk;
    forall x: int | t.prev <= x < t.prev + cfg.phase
      ensures CounterOk(cfg, t, x)
    {
      assert CounterOk(cfg, s, x);
    }
  }

  lemma SpinKeeps(cfg: Config, s: State, p: nat)
    requires Inv(cfg, s) && cfg.Spaced() && p < cfg.n && s.procs[p].pc.Spin?
    ensures Inv(cfg, Step(cfg, s, p))
  {
    assert ProcOk(cfg, s, p);
    if s.counters[Slot(cfg, s.procs[p].pos - 1)] >= cfg.n {
      SpinSees(cfg, s, p);
      hide Inv, Slot, Cleared;
      Moves(cfg, s, p, Passed);
    }
  }

  lemma PassedKeeps(cfg: Config, s: State, p: nat)
    requires Inv(cfg, s) && p < cfg.n && s.procs[p].pc.Passed?
    ensures Inv(cfg, Step(cfg, s, p))
  {
    assert ProcOk(cfg, s, p) && LastOk(cfg, s);
    hide Inv, Slot;
    Moves(cfg, s, p, Step(cfg, s, p).procs[p].pc);
  }

  lemma ClearKeeps(cfg: Config, s: State, p: nat)
    requires Inv(cfg, s) && cfg.Spaced() && p < cfg.n && s.procs[p].pc.Clearing?
    requires s.procs[p].pc.i != Slot(cfg, s.procs[p].pos - 1)
    ensures Inv(cfg, Step(cfg, s, p))
  {
    var t, y := Step(cfg, s, p), s.procs[p].pc.y;
    assert ProcOk(cfg, s, p) && LastOk(cfg, s);
    LastInRound(cfg, s);
    SlotNext(cfg, y);
    ClearedMore(cfg, s, y);
    forall q | 0 <= q < cfg.n
      ensures ProcOk(cfg, t, q)
    {
      ClearProc(cfg, s, p, q);
    }
    ClearedStays(cfg, s, y, s.procs[p].pc, s.last);
    hide Slot, ProcOk;
    assert LastOk(cfg, t);
    forall x: int
      ensures LogOk(cfg, t, x)
    {
      assert LogOk(cfg, s, x);
    }
    hide LogOk;
    forall x: int | t.prev <= x < t.prev + cfg.phase
      ensures CounterOk(cfg, t, x)
    {
      assert CounterOk(cfg, s, x);
      SlotNear(cfg, x, y);
    }
  }

  lemma ClearProc(cfg: Config, s: State, p: nat, q: nat)
    requires Inv(cfg, s) && cfg.Spaced() && p < cfg.n && s.procs[p].pc.Clearing? && q < cfg.n
    requires s.procs[p].pc.i != Slot(cfg, s.procs[p].pos - 1)
    ensures Shape(cfg, Step(cfg, s, p)) && ProcOk(cfg, Step(cfg, s, p), q)
  {
    var y := s.procs[p].pc.y;
    assert ProcOk(cfg, s, p) && ProcOk(cfg, s, q) && LastOk(cfg, s);
    LastInRound(cfg, s);
    SlotNext(cfg, y);
    hide Inv, Slot, Cleared;
    ClearedMore(cfg, s, y);
    ClearedStays(cfg, s, y, s.procs[q].pc, s.last);
  }

  /** Clearing a counter clears one more of them. */
  lemma ClearedMore(cfg: Config, s: State, y: int)
    requires Shape(cfg, s) && Cleared(cfg, s, y)
    ensures Cleared(cfg, s.(counters := s.counters[Slot(cfg, y) := 0]), y + 1)
  {
    hide Slot;
    var t := s.(counters := s.counters[Slot(cfg, y) := 0]);
    forall x: int | t.prev <= x < y + 1
      ensures t.counters[Slot(cfg, x)] == 0
    {
      assert x < y ==> s.counters[Slot(cfg, x)] == 0;
    }
  }

  lemma ClearedStill(cfg: Config, s: State, y: int, upTo: int)
    requires Shape(cfg, s) && Cleared(cfg, s, upTo)
    ensures Cleared(cfg, s.(counters := s.counters[Slot(cfg, y) := 0]), upTo)
  {
    hide Slot;
    var t := s.(counters := s.counters[Slot(cfg, y) := 0]);
    forall x: int | t.prev <= x < upTo
      ensures t.counters[Slot(cfg, x)] == 0
    {
      assert s.counters[Slot(cfg, x)] == 0;
    }
  }

  lemma ClearedStays(cfg: Config, s: State, y: int, pc: Pc, last: int)
    requires Shape(cfg, s)
    ensures var t := s.(counters := s.counters[Slot(cfg, y) := 0]);
            && (Cleared(cfg, s, last) ==> Cleared(cfg, t, last))
            && (pc.Clearing? && Cleared(cfg, s, pc.y) ==> Cleared(cfg, t, pc.y))
  {
    hide Cleared;
    if Cleared(cfg, s, last) {
      ClearedStill(cfg, s, y, last);
    }
    if pc.Clearing? && Cleared(cfg, s, pc.y) {
      ClearedStill(cfg, s, y, pc.y);
    }
  }

  lemma DoneKeeps(cfg: Config, s: State, p: nat)
    requires Inv(cfg, s) && cfg.Spaced() && p < cfg.n && s.procs[p].pc.Clearing?
    requires s.procs[p].pc.i == Slot(cfg, s.procs[p].pos - 1)
    ensures Inv(cfg, Step(cfg, s, p))
  {
    var t, y := Step(cfg, s, p), s.procs[p].pc.y;
    assert ProcOk(cfg, s, p) && LastOk(cfg, s);
    LastInRound(cfg, s);
    SlotNear(cfg, y, s.last);
    hide Slot;
    assert LastOk(cfg, t);
    forall q | 0 <= q < cfg.n
      ensures ProcOk(cfg, t, q)
    {
      assert ProcOk(cfg, s, q);
    }
    hide ProcOk;
    forall x: int
      ensures LogOk(cfg, t, x)
    {
      assert LogOk(cfg, s, x);
    }
    hide LogOk;
    forall x: int | t.prev <= x < t.prev + cfg.phase
      ensures CounterOk(cfg, t, x)
    {
      assert CounterOk(cfg, s, x);
    }
  }

  // ---- arriving ----------------------------------------------------------------------

  /** The counter an arrival fetches counts the arrivals before it. */
  lemma ArrivalCount(cfg: Config, s: State, p: nat)
    requires Inv(cfg, s) && cfg.Spaced() && p < cfg.n && s.procs[p].pc.Free?
    ensures var x := s.procs[p].pos;
            && s.last < x < s.prev + cfg.phase && p !in LogAt(s, x)
            && s.counters[Slot(cfg, x)] == |LogAt(s, x)|
  {
    var x := s.procs[p].pos;
    assert ProcOk(cfg, s, p) && LogOk(cfg, s, x);
    PosInRound(cfg, s, p);
    assert CounterOk(cfg, s, x);
  }

  lemma ArriveLogs(cfg: Config, s: State, p: nat, y: int)
    requires Inv(cfg, s) && cfg.Spaced() && p < cfg.n && s.procs[p].pc.Free?
    ensures Shape(cfg, Arrive(cfg, s, p)) && LogOk(cfg, Arrive(cfg, s, p), y)
  {
    var x := s.procs[p].pos;
    ArrivalCount(cfg, s, p);
    assert LogOk(cfg, s, y) && LogOk(cfg, s, x);
    hide Slot, ProcOk, CounterOk, LastOk;
    if y == x {
      LogGrows(cfg, s, p);
    }
  }

  /** Adding an arrival to the record. */
  lemma LogGrows(cfg: Config, s: State, p: nat)
    requires Shape(cfg, s) && p < cfg.n && LogOk(cfg, s, s.procs[p].pos) && p !in LogAt(s, s.procs[p].pos)
    ensures var l := LogAt(s, s.procs[p].pos) + [p]; Distinct(l) && |l| <= cfg.n
  {
    var was := LogAt(s, s.procs[p].pos);
    var l := was + [p];
    forall j, k | 0 <= j < k < |l|
      ensures l[j] != l[k]
    {
      assert k == |was| ==> was[j] in was;
    }
    ElemsCount(l);
    BelowCount(cfg.n);
    assert Elems(l) <= Below(cfg.n);
    SubsetCount(Elems(l), Below(cfg.n));
  }

  /** Counters in the old round. */
  lemma ArriveCounters(cfg: Config, s: State, p: nat, y: int)
    requires Inv(cfg, s) && cfg.Spaced() && p < cfg.n && s.procs[p].pc.Free? && s.prev <= y < s.prev + cfg.phase
    ensures var t := Arrive(cfg, s, p);
            Shape(cfg, t) && (t.counters[Slot(cfg, y)] == |LogAt(t, y)|
              || (y < s.last && t.counters[Slot(cfg, y)] == 0))
  {
    var x := s.procs[p].pos;
    ArrivalCount(cfg, s, p);
    assert CounterOk(cfg, s, y);
    SlotNear(cfg, x, y);
    hide Slot, ProcOk, LastOk, LogOk;
  }

  /** Arriving without completing a strong barrier. */
  lemma ArriveOn(cfg: Config, s: State, p: nat)
    requires Inv(cfg, s) && cfg.Spaced() && p < cfg.n && s.procs[p].pc.Free? && Arrive(cfg, s, p).last == s.last
    ensures Inv(cfg, Arrive(cfg, s, p))
  {
    var t, x := Arrive(cfg, s, p), s.procs[p].pos;
    ArrivalCount(cfg, s, p);
    ArrivePrev(cfg, s, p);
    forall y: int
      ensures LogOk(cfg, t, y)
    {
      ArriveLogs(cfg, s, p, y);
    }
    forall y: int | t.prev <= y < t.prev + cfg.phase
      ensures CounterOk(cfg, t, y)
    {
      ArriveCounters(cfg, s, p, y);
    }
    ArriveCleared(cfg, s, p);
    forall q | 0 <= q < cfg.n
      ensures ProcOk(cfg, t, q)
    {
      ArriveProc(cfg, s, p, q);
    }
    hide Slot, ProcOk, LogOk, CounterOk, Cleared;
    assert LastOk(cfg, t);
  }

  lemma ArrivePrev(cfg: Config, s: State, p: nat)
    requires Inv(cfg, s) && cfg.Spaced() && p < cfg.n && s.procs[p].pc.Free? && Arrive(cfg, s, p).last == s.last
    ensures Arrive(cfg, s, p).prev == s.prev
    ensures !(cfg.strong(s.procs[p].pos) && |LogAt(s, s.procs[p].pos)| + 1 == cfg.n)
  {
    ArrivalCount(cfg, s, p);
  }

  /** An arrival's counter is none of the cleared ones. */
  lemma ArriveCleared(cfg: Config, s: State, p: nat)
    requires Inv(cfg, s) && cfg.Spaced() && p < cfg.n && s.procs[p].pc.Free? && Arrive(cfg, s, p).prev == s.prev
    ensures Shape(cfg, Arrive(cfg, s, p))
    ensures forall y: int | y <= s.last && Cleared(cfg, s, y) :: Cleared(cfg, Arrive(cfg, s, p), y)
  {
    var t, x := Arrive(cfg, s, p), s.procs[p].pos;
    ArrivalCount(cfg, s, p);
    hide LogOk, ProcOk, CounterOk, LastOk;
    forall y: int | y <= s.last && Cleared(cfg, s, y)
      ensures Cleared(cfg, t, y)
    {
      forall z: int | t.prev <= z < y
        ensures t.counters[Slot(cfg, z)] == 0
      {
        assert s.counters[Slot(cfg, z)] == 0;
        SlotNear(cfg, x, z);
      }
    }
  }

  lemma ArriveProc(cfg: Config, s: State, p: nat, q: nat)
    requires Inv(cfg, s) && cfg.Spaced() && p < cfg.n && s.procs[p].pc.Free? && Arrive(cfg, s, p).last == s.last
    requires q < cfg.n
    ensures Shape(cfg, Arrive(cfg, s, p)) && ProcOk(cfg, Arrive(cfg, s, p), q)
  {
    var t := Arrive(cfg, s, p);
    ArrivalCount(cfg, s, p);
    ArrivePrev(cfg, s, p);
    ArriveCleared(cfg, s, p);
    assert ProcOk(cfg, s, p) && ProcOk(cfg, s, q);
    hide Slot, LogOk, CounterOk, LastOk, Cleared;
  }

  /** Completing a strong barrier: everyone waits at it, and a new round begins. */
  lemma ArriveAll(cfg: Config, s: State, p: nat)
    requires Inv(cfg, s) && cfg.Spaced() && p < cfg.n && s.procs[p].pc.Free? && Arrive(cfg, s, p).last != s.last
    ensures Inv(cfg, Arrive(cfg, s, p))
  {
    var t, x := Arrive(cfg, s, p), s.procs[p].pos;
    ArrivalCount(cfg, s, p);
    assert t.last == x && t.prev == s.last && cfg.strong(x);
    forall y: int
      ensures LogOk(cfg, t, y)
    {
      ArriveLogs(cfg, s, p, y);
    }
    AllAt(cfg, s, p);
    forall q | 0 <= q < cfg.n
      ensures ProcOk(cfg, t, q)
    {
      AllProc(cfg, s, p, q);
    }
    forall y: int | t.prev <= y < t.prev + cfg.phase
      ensures CounterOk(cfg, t, y)
    {
      AllCounter(cfg, s, p, y);
    }
    AllLast(cfg, s, p);
  }

  /** When the last processor arrives at a strong barrier, all others wait there. */
  lemma AllAt(cfg: Config, s: State, p: nat)
    requires Inv(cfg, s) && cfg.Spaced() && p < cfg.n && s.procs[p].pc.Free? && Arrive(cfg, s, p).last != s.last
    ensures var x := s.procs[p].pos;
            && s.lastUsed == Slot(cfg, s.last) && Cleared(cfg, s, s.last)
            && forall q | 0 <= q < cfg.n && q != p :: s.procs[q].pos == x + 1 && s.procs[q].pc == Spin
  {
    var x := s.procs[p].pos;
    ArrivalCount(cfg, s, p);
    assert ProcOk(cfg, s, p) && LogOk(cfg, s, x);
    var l := LogAt(s, x) + [p];
    LogGrows(cfg, s, p);
    assert |l| == cfg.n && cfg.IsStrong(x);
    forall q | 0 <= q < cfg.n && q != p
      ensures s.procs[q].pos == x + 1 && s.procs[q].pc == Spin
    {
      hide Slot, Cleared, CounterOk;
      Pigeon(l, cfg.n, q);
      assert q in LogAt(s, x);
      assert ProcOk(cfg, s, q);
      assert !(s.last < x < s.procs[q].pos - 1);
    }
  }

  lemma AllProc(cfg: Config, s: State, p: nat, q: nat)
    requires Inv(cfg, s) && cfg.Spaced() && p < cfg.n && s.procs[p].pc.Free? && Arrive(cfg, s, p).last != s.last
    requires q < cfg.n
    ensures Shape(cfg, Arrive(cfg, s, p)) && ProcOk(cfg, Arrive(cfg, s, p), q)
  {
    AllAt(cfg, s, p);
    ArrivalCount(cfg, s, p);
    assert ProcOk(cfg, s, q);
    var t, x := Arrive(cfg, s, p), s.procs[p].pos;
    hide Slot, LogOk, CounterOk, LastOk, Cleared;
    assert t.procs[q].pos == x + 1 && t.procs[q].pc == Spin && t.last == x;
  }

  lemma AllCounter(cfg: Config, s: State, p: nat, y: int)
    requires Inv(cfg, s) && cfg.Spaced() && p < cfg.n && s.procs[p].pc.Free? && Arrive(cfg, s, p).last != s.last
    requires s.last <= y < s.last + cfg.phase
    ensures Shape(cfg, Arrive(cfg, s, p)) && CounterOk(cfg, Arrive(cfg, s, p), y)
  {
    var t, x := Arrive(cfg, s, p), s.procs[p].pos;
    AllAt(cfg, s, p);
    ArrivalCount(cfg, s, p);
    LastInRound(cfg, s);
    if y < s.prev + cfg.phase {
      ArriveCounters(cfg, s, p, y);
    } else {
      var z := y - cfg.phase;
      assert s.counters[Slot(cfg, z)] == 0;
      ModUp(cfg, z);
      SlotNear(cfg, x, z);
      NobodyYet(cfg, s, p, y);
    }
  }

  lemma NobodyYet(cfg: Config, s: State, p: nat, y: int)
    requires Inv(cfg, s) && cfg.Spaced() && p < cfg.n && s.procs[p].pc.Free? && Arrive(cfg, s, p).last != s.last
    requires y > s.procs[p].pos
    ensures LogAt(Arrive(cfg, s, p), y) == []
  {
    AllAt(cfg, s, p);
    assert LogOk(cfg, s, y);
    ElemsCount(LogAt(s, y));
    assert Elems(LogAt(s, y)) == {};
  }

  lemma AllLast(cfg: Config, s: State, p: nat)
    requires Inv(cfg, s) && cfg.Spaced() && p < cfg.n && s.procs[p].pc.Free? && Arrive(cfg, s, p).last != s.last
    ensures Shape(cfg, Arrive(cfg, s, p)) && LastOk(cfg, Arrive(cfg, s, p))
  {
    var t, x := Arrive(cfg, s, p), s.procs[p].pos;
    AllAt(cfg, s, p);
    ArrivalCount(cfg, s, p);
    assert ProcOk(cfg, s, p) && LastOk(cfg, s);
    SlotNear(cfg, s.last, x);
    PosInRound(cfg, s, p);
    hide Slot, LogOk, CounterOk;
  }

  /** Every step of every processor keeps the invariant. */
  lemma StepInv(cfg: Config, s: State, p: nat)
    requires Inv(cfg, s) && cfg.Spaced() && p < cfg.n
    ensures Inv(cfg, Step(cfg, s, p))
  {
    assert Shape(cfg, s);
    hide Inv, Slot, Config.Spaced;
    match s.procs[p].pc
    case Free =>
      if Arrive(cfg, s, p).last == s.last {
        ArriveOn(cfg, s, p);
      } else {
        ArriveAll(cfg, s, p);
      }
    case Spin => SpinKeeps(cfg, s, p);
    case Passed => PassedKeeps(cfg, s, p);
    case Clearing(i, y) =>
      if i != Slot(cfg, s.procs[p].pos - 1) {
        ClearKeeps(cfg, s, p);
      } else {
        DoneKeeps(cfg, s, p);
      }
  }

  // ---- runs -----------------------------------------------------------------------------

  function Run(cfg: Config, s: State, acts: seq<nat>): (t: State)
    requires Shape(cfg, s) && forall k | 0 <= k < |acts| :: acts[k] < cfg.n
    ensures Shape(cfg, t)
    decreases acts
  {
    if acts == [] then s else StepShape(cfg, s, acts[0]); Run(cfg, Step(cfg, s, acts[0]), acts[1..])
  }

  lemma StepShape(cfg: Config, s: State, p: nat)
    requires Shape(cfg, s) && p < cfg.n
    ensures Shape(cfg, Step(cfg, s, p))
  {}

  lemma {:induction false} RunInv(cfg: Config, s: State, acts: seq<nat>)
    requires Inv(cfg, s) && cfg.Spaced() && forall k | 0 <= k < |acts| :: acts[k] < cfg.n
    ensures Inv(cfg, Run(cfg, s, acts))
    decreases acts
  {
    hide Step, Config.Spaced;
    if acts != [] {
      StepInv(cfg, s, acts[0]);
      RunInv(cfg, Step(cfg, s, acts[0]), acts[1..]);
    }
  }

  /** Whoever has left, or is leaving, a strong barrier. */
  predicate Left(proc: Proc, x: nat) {
    proc.pos > x + 1 || (proc.pos == x + 1 && !proc.pc.Spin?)
  }

  /** Nobody leaves a strong barrier before all have arrived. */
  ghost predicate NobodyEarly(cfg: Config, s: State)
    requires Shape(cfg, s)
  {
    forall p, q, x: nat {:trigger Left(s.procs[p], x), s.procs[q]} |
      0 <= p < cfg.n && 0 <= q < cfg.n && cfg.strong(x) && Left(s.procs[p], x) :: s.procs[q].pos > x
  }

  /** A counter stays exactly full until everyone has left its barrier. */
  ghost predicate FullWhileLeft(cfg: Config, s: State)
    requires Shape(cfg, s)
  {
    forall p | 0 <= p < cfg.n && (s.procs[p].pc.Passed? || s.procs[p].pc.Clearing?) ::
      s.counters[Slot(cfg, s.procs[p].pos - 1)] == cfg.n
  }

  /** The next arrival anywhere fetches the number of arrivals before it: zero if it is
      the first, however late counters are cleared. */
  ghost predicate CountsArrivals(cfg: Config, s: State)
    requires Shape(cfg, s)
  {
    forall p | 0 <= p < cfg.n && s.procs[p].pc.Free? ::
      s.counters[Slot(cfg, s.procs[p].pos)] == |LogAt(s, s.procs[p].pos)|
  }

  /** Processors at the same barrier have different places below `n`. */
  ghost predicate PlacesDiffer(cfg: Config, s: State)
    requires Shape(cfg, s)
  {
    && (forall p | 0 <= p < cfg.n && s.procs[p].pos > 0 :: 0 <= s.procs[p].index < cfg.n)
    && (forall p, q | 0 <= p < q < cfg.n && s.procs[p].pos == s.procs[q].pos > 0 ::
      s.procs[p].index != s.procs[q].index)
  }

  /** What barriers promise, in every state of every schedule, when strong barriers are
      close enough together. */
  lemma {:induction false} BarriersAreSafe(cfg: Config, acts: seq<nat>)
    requires cfg.n > 0 && cfg.phase > 0 && cfg.Spaced() && forall k | 0 <= k < |acts| :: acts[k] < cfg.n
    ensures var s := Run(cfg, Init(cfg), acts);
            Shape(cfg, s) && NobodyEarly(cfg, s) && FullWhileLeft(cfg, s) && CountsArrivals(cfg, s)
              && PlacesDiffer(cfg, s)
  {
    InitInv(cfg);
    hide Run, Config.Spaced, Inv;
    RunInv(cfg, Init(cfg), acts);
    var s := Run(cfg, Init(cfg), acts);
    InvShape(cfg, s);
    hide Shape, NobodyEarly, FullWhileLeft, CountsArrivals, PlacesDiffer;
    SafeLeaving(cfg, s);
    SafeCounts(cfg, s);
    SafePlaces(cfg, s);
  }

  lemma InvShape(cfg: Config, s: State)
    requires Inv(cfg, s)
    ensures Shape(cfg, s)
  {}

  lemma SafeLeaving(cfg: Config, s: State)
    requires Inv(cfg, s) && cfg.Spaced()
    ensures NobodyEarly(cfg, s) && FullWhileLeft(cfg, s)
  {
    assert Shape(cfg, s);
    forall p | 0 <= p < cfg.n && (s.procs[p].pc.Passed? || s.procs[p].pc.Clearing?)
      ensures s.counters[Slot(cfg, s.procs[p].pos - 1)] == cfg.n
    {
      assert ProcOk(cfg, s, p);
      SpinSees(cfg, s, p);
    }
    hide Inv, Config.Spaced;
    forall p, q, x: nat | 0 <= p < cfg.n && 0 <= q < cfg.n && cfg.strong(x) && Left(s.procs[p], x)
      ensures s.procs[q].pos > x
    {
      LeftAll(cfg, s, p, q, x);
    }
  }

  lemma SafeCounts(cfg: Config, s: State)
    requires Inv(cfg, s) && cfg.Spaced()
    ensures Shape(cfg, s) && CountsArrivals(cfg, s)
  {
    InvShape(cfg, s);
    hide Inv, Config.Spaced;
    forall p | 0 <= p < cfg.n && s.procs[p].pc.Free?
      ensures s.counters[Slot(cfg, s.procs[p].pos)] == |LogAt(s, s.procs[p].pos)|
    {
      ArrivalCount(cfg, s, p);
    }
  }

  lemma SafePlaces(cfg: Config, s: State)
    requires Inv(cfg, s)
    ensures Shape(cfg, s) && PlacesDiffer(cfg, s)
  {
    InvShape(cfg, s);
    hide Inv;
    forall p | 0 <= p < cfg.n && s.procs[p].pos > 0
      ensures 0 <= s.procs[p].index < cfg.n && s.procs[p].index < |LogAt(s, s.procs[p].pos - 1)|
      ensures LogAt(s, s.procs[p].pos - 1)[s.procs[p].index] == p
    {
      IndexBelow(cfg, s, p);
    }
    hide LogAt;
    forall p, q | 0 <= p < q < cfg.n && s.procs[p].pos == s.procs[q].pos > 0
      ensures s.procs[p].index != s.procs[q].index
    {
      assert LogAt(s, s.procs[p].pos - 1)[s.procs[p].index] == p;
    }
  }

  lemma LeftAll(cfg: Config, s: State, p: nat, q: nat, x: nat)
    requires Inv(cfg, s) && p < cfg.n && q < cfg.n && cfg.strong(x) && Left(s.procs[p], x)
    ensures s.procs[q].pos > x
  {
    assert ProcOk(cfg, s, p) && ProcOk(cfg, s, q) && cfg.IsStrong(x);
    hide Slot, Cleared, LogAt, CounterOk, LogOk, LastOk;
    var pos: int := s.procs[p].pos;
    assert !(s.last < x < pos - 1);
  }

  lemma IndexBelow(cfg: Config, s: State, p: nat)
    requires Inv(cfg, s) && p < cfg.n && s.procs[p].pos > 0
    ensures var l := LogAt(s, s.procs[p].pos - 1);
            0 <= s.procs[p].index < |l| && l[s.procs[p].index] == p && |l| <= cfg.n
  {
    var l := LogAt(s, s.procs[p].pos - 1);
    assert ProcOk(cfg, s, p) && LogOk(cfg, s, s.procs[p].pos - 1);
    ElemsCount(l);
    BelowCount(cfg.n);
    assert Elems(l) <= Below(cfg.n);
    SubsetCount(Elems(l), Below(cfg.n));
  }

  /** Three counters are enough when every barrier is strong. */
  lemma ThreeSuffice(cfg: Config)
    requires cfg.phase >= 3 && forall x: nat :: cfg.strong(x)
    ensures cfg.Spaced()
  {
    forall a: int | a == -1 || cfg.IsStrong(a)
      ensures cfg.TwoWithin(a)
    {
      assert cfg.IsStrong(a + 1) && cfg.IsStrong(a + 2);
    }
  }

  /** Without the spacing it goes wrong: two processors, three counters, and a weak
      barrier before two strong ones. The first processor, late in leaving the first
      strong barrier, clears the counter on which the second has already arrived at the
      next; it is then given the same place as the second, and neither can go on. */
  lemma {:induction false} LateClearing(cfg: Config, start: seq<nat>, pass: seq<nat>, late: seq<nat>, end: seq<nat>)
    requires cfg == Config(2, 3, x => x > 0)
    requires start == [0, 1, 0, 1] && pass == [0, 1] && late == [0, 1, 1, 1, 1, 1] && end == [0, 0, 0, 0]
    ensures var s := Run(cfg, Run(cfg, Run(cfg, Init(cfg), start), pass), late);
            && Shape(cfg, s) && s.procs[1].pos == 3 && s.counters[2] == 1
            && var t := Run(cfg, s, end);
               && Shape(cfg, t) && t.procs[0].pos == t.procs[1].pos == 3 && t.procs[0].index == t.procs[1].index == 0
               && Step(cfg, t, 0) == t == Step(cfg, t, 1)
  {
    hide Run;
    var s := Init(cfg);
    assert Is(s, [0, 0, 0], 2, Proc(0, Free, -1), Proc(0, Free, -1), -1, -1, [0, 0, 0]);
    BothArrive(cfg, s);
    var arrived := Run(cfg, s, start);
    BothPass(cfg, arrived);
    var passed := Run(cfg, arrived, pass);
    SecondLeaves(cfg, passed);
    FirstClears(cfg, Run(cfg, passed, late));
  }

  lemma {:induction false} OneStep(cfg: Config, s: State, acts: seq<nat>)
    requires Shape(cfg, s) && acts != [] && forall k | 0 <= k < |acts| :: acts[k] < cfg.n
    ensures Shape(cfg, Step(cfg, s, acts[0])) && Run(cfg, s, acts) == Run(cfg, Step(cfg, s, acts[0]), acts[1..])
  {
    StepShape(cfg, s, acts[0]);
  }

  lemma {:induction false} NoSteps(cfg: Config, s: State)
    requires Shape(cfg, s)
    ensures Run(cfg, s, []) == s
  {}

  /** A state of two processors and three counters, with the lengths of the records. */
  predicate Is(s: State, c: seq<int>, lastUsed: nat, a: Proc, b: Proc, prev: int, last: int, lens: seq<nat>)
    requires |lens| == 3
  {
    && s.counters == c && s.lastUsed == lastUsed && s.procs == [a, b] && s.prev == prev && s.last == last
    && |LogAt(s, 0)| == lens[0] && |LogAt(s, 1)| == lens[1] && |LogAt(s, 2)| == lens[2]
  }

  lemma {:induction false} BothArrive(cfg: Config, s: State)
    requires cfg == Config(2, 3, x => x > 0) && Shape(cfg, s)
    requires Is(s, [0, 0, 0], 2, Proc(0, Free, -1), Proc(0, Free, -1), -1, -1, [0, 0, 0])
    ensures Shape(cfg, Run(cfg, s, [0, 1, 0, 1]))
    ensures Is(Run(cfg, s, [0, 1, 0, 1]), [2, 2, 0], 2, Proc(2, Spin, 0), Proc(2, Spin, 1), -1, 1, [2, 2, 0])
  {
    hide Run;
    OneStep(cfg, s, [0, 1, 0, 1]);
    assert [0, 1, 0, 1][1..] == [1, 0, 1];
    var s1 := Step(cfg, s, 0);
    assert Is(s1, [1, 0, 0], 2, Proc(1, Free, 0), Proc(0, Free, -1), -1, -1, [1, 0, 0]);
    OneStep(cfg, s1, [1, 0, 1]);
    assert [1, 0, 1][1..] == [0, 1];
    var s2 := Step(cfg, s1, 1);
    assert Is(s2, [2, 0, 0], 2, Proc(1, Free, 0), Proc(1, Free, 1), -1, -1, [2, 0, 0]);
    OneStep(cfg, s2, [0, 1]);
    assert [0, 1][1..] == [1];
    var s3 := Step(cfg, s2, 0);
    assert Is(s3, [2, 1, 0], 2, Proc(2, Spin, 0), Proc(1, Free, 1), -1, -1, [2, 1, 0]);
    OneStep(cfg, s3, [1]);
    assert [1][1..] == [];
    var s4 := Step(cfg, s3, 1);
    assert Is(s4, [2, 2, 0], 2, Proc(2, Spin, 0), Proc(2, Spin, 1), -1, 1, [2, 2, 0]);
    NoSteps(cfg, s4);
  }

  lemma {:induction false} BothPass(cfg: Config, s: State)
    requires cfg == Config(2, 3, x => x > 0) && Shape(cfg, s)
    requires Is(s, [2, 2, 0], 2, Proc(2, Spin, 0), Proc(2, Spin, 1), -1, 1, [2, 2, 0])
    ensures Shape(cfg, Run(cfg, s, [0, 1]))
    ensures Is(Run(cfg, s, [0, 1]), [2, 2, 0], 2, Proc(2, Passed, 0), Proc(2, Passed, 1), -1, 1, [2, 2, 0])
  {
    hide Run;
    OneStep(cfg, s, [0, 1]);
    assert [0, 1][1..] == [1];
    var s1 := Step(cfg, s, 0);
    assert Is(s1, [2, 2, 0], 2, Proc(2, Passed, 0), Proc(2, Spin, 1), -1, 1, [2, 2, 0]);
    OneStep(cfg, s1, [1]);
    assert [1][1..] == [];
    var s2 := Step(cfg, s1, 1);
    assert Is(s2, [2, 2, 0], 2, Proc(2, Passed, 0), Proc(2, Passed, 1), -1, 1, [2, 2, 0]);
    NoSteps(cfg, s2);
  }

  lemma {:induction false} SecondLeaves(cfg: Config, s: State)
    requires cfg == Config(2, 3, x => x > 0) && Shape(cfg, s)
    requires Is(s, [2, 2, 0], 2, Proc(2, Passed, 0), Proc(2, Passed, 1), -1, 1, [2, 2, 0])
    ensures Shape(cfg, Run(cfg, s, [0, 1, 1, 1, 1, 1]))
    ensures Is(Run(cfg, s, [0, 1, 1, 1, 1, 1]), [0, 2, 1], 1, Proc(2, Clearing(2, -1), 0), Proc(3, Spin, 0),
               -1, 1, [2, 2, 1])
  {
    hide Run;
    OneStep(cfg, s, [0, 1, 1, 1, 1, 1]);
    assert [0, 1, 1, 1, 1, 1][1..] == [1, 1, 1, 1, 1];
    var s1 := Step(cfg, s, 0);
    assert Is(s1, [2, 2, 0], 2, Proc(2, Clearing(2, -1), 0), Proc(2, Passed, 1), -1, 1, [2, 2, 0]);
    OneStep(cfg, s1, [1, 1, 1, 1, 1]);
    assert [1, 1, 1, 1, 1][1..] == [1, 1, 1, 1];
    var s2 := Step(cfg, s1, 1);
    assert Is(s2, [2, 2, 0], 2, Proc(2, Clearing(2, -1), 0), Proc(2, Clearing(2, -1), 1), -1, 1, [2, 2, 0]);
    OneStep(cfg, s2, [1, 1, 1, 1]);
    assert [1, 1, 1, 1][1..] == [1, 1, 1];
    var s3 := Step(cfg, s2, 1);
    assert Is(s3, [2, 2, 0], 2, Proc(2, Clearing(2, -1), 0), Proc(2, Clearing(0, 0), 1), -1, 1, [2, 2, 0]);
    OneStep(cfg, s3, [1, 1, 1]);
    assert [1, 1, 1][1..] == [1, 1];
    var s4 := Step(cfg, s3, 1);
    assert Is(s4, [0, 2, 0], 2, Proc(2, Clearing(2, -1), 0), Proc(2, Clearing(1, 1), 1), -1, 1, [2, 2, 0]);
    OneStep(cfg, s4, [1, 1]);
    assert [1, 1][1..] == [1];
    var s5 := Step(cfg, s4, 1);
    assert Is(s5, [0, 2, 0], 1, Proc(2, Clearing(2, -1), 0), Proc(2, Free, 1), -1, 1, [2, 2, 0]);
    OneStep(cfg, s5, [1]);
    assert [1][1..] == [];
    var s6 := Step(cfg, s5, 1);
    assert Is(s6, [0, 2, 1], 1, Proc(2, Clearing(2, -1), 0), Proc(3, Spin, 0), -1, 1, [2, 2, 1]);
    NoSteps(cfg, s6);
  }

  lemma {:induction false} FirstClears(cfg: Config, s: State)
    requires cfg == Config(2, 3, x => x > 0) && Shape(cfg, s)
    requires Is(s, [0, 2, 1], 1, Proc(2, Clearing(2, -1), 0), Proc(3, Spin, 0), -1, 1, [2, 2, 1])
    ensures Shape(cfg, Run(cfg, s, [0, 0, 0, 0]))
    ensures Is(Run(cfg, s, [0, 0, 0, 0]), [0, 2, 1], 1, Proc(3, Spin, 0), Proc(3, Spin, 0), 1, 2, [2, 2, 2])
  {
    hide Run;
    OneStep(cfg, s, [0, 0, 0, 0]);
    assert [0, 0, 0, 0][1..] == [0, 0, 0];
    var s1 := Step(cfg, s, 0);
    assert Is(s1, [0, 2, 0], 1, Proc(2, Clearing(0, 0), 0), Proc(3, Spin, 0), -1, 1, [2, 2, 1]);
    OneStep(cfg, s1, [0, 0, 0]);
    assert [0, 0, 0][1..] == [0, 0];
    var s2 := Step(cfg, s1, 0);
    assert Is(s2, [0, 2, 0], 1, Proc(2, Clearing(1, 1), 0), Proc(3, Spin, 0), -1, 1, [2, 2, 1]);
    OneStep(cfg, s2, [0, 0]);
    assert [0, 0][1..] == [0];
    var s3 := Step(cfg, s2, 0);
    assert Is(s3, [0, 2, 0], 1, Proc(2, Free, 0), Proc(3, Spin, 0), -1, 1, [2, 2, 1]);
    OneStep(cfg, s3, [0]);
    assert [0][1..] == [];
    var s4 := Step(cfg, s3, 0);
    assert Is(s4, [0, 2, 1], 1, Proc(3, Spin, 0), Proc(3, Spin, 0), 1, 2, [2, 2, 2]);
    NoSteps(cfg, s4);
  }
}

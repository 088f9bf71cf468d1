/** Barriers whose strong ones are too far apart for the counters: for every such
    sequence there is a schedule after which a counter is wrong. */
module BarriersConverse {
  import opened Packing
  import opened Barriers

  /** Some schedule leads from one state to the other. */
  ghost predicate Reaches(cfg: Config, s: State, t: State) {
    Shape(cfg, s) && exists acts :: IsSchedule(cfg, acts) && Run(cfg, s, acts) == t
  }

  predicate IsSchedule(cfg: Config, acts: seq<nat>) {
    forall k | 0 <= k < |acts| :: acts[k] < cfg.n
  }

  lemma {:induction false} RunAppend(cfg: Config, s: State, a: seq<nat>, b: seq<nat>)
    requires Shape(cfg, s) && IsSchedule(cfg, a) && IsSchedule(cfg, b)
    ensures IsSchedule(cfg, a + b) && Run(cfg, s, a + b) == Run(cfg, Run(cfg, s, a), b)
    decreases a
  {
    hide Step;
    if a == [] {
      assert a + b == b;
    } else {
      StepShape(cfg, s, a[0]);
      RunAppend(cfg, Step(cfg, s, a[0]), a[1..], b);
      assert (a + b)[0] == a[0] && (a + b)[1..] == a[1..] + b;
    }
  }

  lemma {:induction false} Stays(cfg: Config, s: State)
    requires Shape(cfg, s)
    ensures Reaches(cfg, s, s)
  {
    assert Run(cfg, s, []) == s && IsSchedule(cfg, []);
  }

  lemma Goes(cfg: Config, s: State, p: nat)
    requires Shape(cfg, s) && p < cfg.n
    ensures Reaches(cfg, s, Step(cfg, s, p))
  {
    StepShape(cfg, s, p);
    OneStep(cfg, s, [p]);
    NoSteps(cfg, Step(cfg, s, p));
    assert [p][1..] == [] && IsSchedule(cfg, [p]);
    hide Step;
    assert Run(cfg, s, [p]) == Step(cfg, s, p);
  }

  lemma Then(cfg: Config, s: State, t: State, u: State)
    requires Reaches(cfg, s, t) && Reaches(cfg, t, u)
    ensures Reaches(cfg, s, u)
  {
    hide Run;
    var a :| IsSchedule(cfg, a) && Run(cfg, s, a) == t;
    var b :| IsSchedule(cfg, b) && Run(cfg, t, b) == u;
    RunAppend(cfg, s, a, b);
  }

  // ---- states of the schedules -------------------------------------------------------

  /** The counters of a round beginning at position `lo` hold these numbers. */
  ghost predicate Counts(cfg: Config, s: State, lo: int, count: int -> int)
    requires Shape(cfg, s)
  {
    forall x: int {:trigger Slot(cfg, x)} | lo <= x < lo + cfg.phase :: s.counters[Slot(cfg, x)] == count(x)
  }

  /** Nobody has arrived at any barrier from `x` on. */
  ghost predicate Fresh(s: State, x: int) {
    forall y: int | y >= x :: LogAt(s, y) == []
  }

  /** Everyone has passed all barriers before `x`, the last strong one of which was `a`;
      those since `a` are counted, the other counters are zero. */
  ghost predicate AllAtOnce(cfg: Config, s: State, a: int, x: nat) {
    && Shape(cfg, s) && s.lastUsed == Slot(cfg, a) && Fresh(s, x)
    && (forall p | 0 <= p < cfg.n :: s.procs[p].pos == x && s.procs[p].pc == Free)
    && Counts(cfg, s, a, y => if 0 <= y < x then cfg.n else 0)
  }

  /** The first `k` processors have arrived at `x` already. Counters are those of the
      round beginning at `lo`. */
  ghost predicate SomeArrived(cfg: Config, s: State, a: int, lo: int, x: nat, k: nat) {
    && Shape(cfg, s) && s.lastUsed == Slot(cfg, a) && Fresh(s, x + 1)
    && (forall p | 0 <= p < cfg.n ::
          if p < k then s.procs[p].pos == x + 1 && s.procs[p].pc == (if cfg.strong(x) then Spin else Free)
          else s.procs[p].pos == x && s.procs[p].pc == Free)
    && Counts(cfg, s, lo, y => if 0 <= y < x then cfg.n else if y == x then k else 0)
  }

  lemma ArriveNext(cfg: Config, s: State, a: int, lo: int, x: nat, k: nat)
    requires SomeArrived(cfg, s, a, lo, x, k) && k < cfg.n && lo <= x < lo + cfg.phase
    ensures SomeArrived(cfg, Step(cfg, s, k), a, lo, x, k + 1)
  {
    hide Slot;
    var t := Step(cfg, s, k);
    forall y: int {:trigger Slot(cfg, y)} | lo <= y < lo + cfg.phase
      ensures t.counters[Slot(cfg, y)] == if 0 <= y < x then cfg.n else if y == x then k + 1 else 0
    {
      SlotNear(cfg, x, y);
    }
    forall y: int | y >= x + 1
      ensures LogAt(t, y) == []
    {
      assert LogAt(s, y) == [];
    }
  }

  lemma {:induction false} EveryoneArrives(cfg: Config, s: State, a: int, lo: int, x: nat, k: nat) returns (t: State)
    requires SomeArrived(cfg, s, a, lo, x, k) && k <= cfg.n && lo <= x < lo + cfg.phase
    ensures Reaches(cfg, s, t) && SomeArrived(cfg, t, a, lo, x, cfg.n)
    decreases cfg.n - k
  {
    hide SomeArrived, Step;
    if k == cfg.n {
      t := s;
      assert Shape(cfg, s) by { SomeShape(cfg, s, a, lo, x, k); }
      Stays(cfg, s);
    } else {
      SomeShape(cfg, s, a, lo, x, k);
      ArriveNext(cfg, s, a, lo, x, k);
      Goes(cfg, s, k);
      t := EveryoneArrives(cfg, Step(cfg, s, k), a, lo, x, k + 1);
      Then(cfg, s, Step(cfg, s, k), t);
    }
  }

  lemma SomeShape(cfg: Config, s: State, a: int, lo: int, x: nat, k: nat)
    requires SomeArrived(cfg, s, a, lo, x, k)
    ensures Shape(cfg, s)
  {}

  lemma AllShape(cfg: Config, s: State, a: int, x: nat)
    requires AllAtOnce(cfg, s, a, x)
    ensures Shape(cfg, s)
  {}

  lemma NoneYet(cfg: Config, s: State, a: int, x: nat)
    requires AllAtOnce(cfg, s, a, x)
    ensures SomeArrived(cfg, s, a, a, x, 0)
  {
    hide Slot;
  }

  lemma AllNow(cfg: Config, s: State, a: int, x: nat)
    requires SomeArrived(cfg, s, a, a, x, cfg.n) && !cfg.strong(x)
    ensures AllAtOnce(cfg, s, a, x + 1)
  {
    hide Slot;
  }

  /** Everyone passes weak barriers. */
  lemma {:induction false} EveryonePasses(cfg: Config, s: State, a: int, x: nat, y: nat) returns (t: State)
    requires AllAtOnce(cfg, s, a, x) && -1 <= a < x <= y <= a + cfg.phase
    requires forall z: int | x <= z < y :: !cfg.IsStrong(z)
    ensures Reaches(cfg, s, t) && AllAtOnce(cfg, t, a, y)
    decreases y - x
  {
    hide SomeArrived, AllAtOnce;
    AllShape(cfg, s, a, x);
    if x == y {
      t := s;
      Stays(cfg, s);
    } else {
      NoneYet(cfg, s, a, x);
      var u := EveryoneArrives(cfg, s, a, a, x, 0);
      assert !cfg.IsStrong(x);
      AllNow(cfg, u, a, x);
      t := EveryonePasses(cfg, u, a, x + 1, y);
      Then(cfg, s, u, t);
    }
  }

  // ---- leaving a strong barrier ------------------------------------------------------

  /** What a processor clearing counters from barrier `y` to its own, `b`, leaves. */
  ghost predicate ClearedBy(cfg: Config, s: State, t: State, p: nat, y: int, b: int)
    requires Shape(cfg, s) && Shape(cfg, t) && p < cfg.n
  {
    && t.lastUsed == Slot(cfg, b) && t.log == s.log
    && t.procs == s.procs[p := s.procs[p].(pc := Free)]
    && (forall x: int {:trigger Slot(cfg, x)} | y <= x < y + cfg.phase ::
          t.counters[Slot(cfg, x)] == if x < b then 0 else s.counters[Slot(cfg, x)])
  }

  predicate ClearsFrom(cfg: Config, s: State, p: nat, y: int, b: int)
    requires Shape(cfg, s) && p < cfg.n && cfg.phase > 0
  {
    s.procs[p].pc.Clearing? && s.procs[p].pc.i == Slot(cfg, y) && s.procs[p].pos - 1 == b >= 0
  }

  lemma {:induction false} Clears(cfg: Config, s: State, p: nat, y: int, b: int) returns (t: State)
    requires Shape(cfg, s) && p < cfg.n && ClearsFrom(cfg, s, p, y, b) && y <= b < y + cfg.phase
    ensures Reaches(cfg, s, t) && Shape(cfg, t) && ClearedBy(cfg, s, t, p, y, b)
    decreases b - y
  {
    var u := Step(cfg, s, p);
    Goes(cfg, s, p);
    StepShape(cfg, s, p);
    SlotNear(cfg, y, b);
    if y == b {
      t := u;
    } else {
      SlotNext(cfg, y);
      ClearsOne(cfg, s, p, y, b);
      t := Clears(cfg, u, p, y + 1, b);
      hide Slot, Step;
      Then(cfg, s, u, t);
      ClearedThen(cfg, s, u, t, p, y, b);
    }
  }

  lemma ClearsOne(cfg: Config, s: State, p: nat, y: int, b: int)
    requires Shape(cfg, s) && p < cfg.n && ClearsFrom(cfg, s, p, y, b) && y < b < y + cfg.phase
    ensures var u := Step(cfg, s, p);
            && Shape(cfg, u) && ClearsFrom(cfg, u, p, y + 1, b)
            && u.counters == s.counters[Slot(cfg, y) := 0] && u.log == s.log
            && u.procs[p := u.procs[p].(pc := Free)] == s.procs[p := s.procs[p].(pc := Free)]
  {
    SlotNear(cfg, y, b);
    SlotNext(cfg, y);
    StepShape(cfg, s, p);
    hide Slot;
  }

  lemma ClearedThen(cfg: Config, s: State, u: State, t: State, p: nat, y: int, b: int)
    requires Shape(cfg, s) && Shape(cfg, u) && Shape(cfg, t) && p < cfg.n && y < b < y + cfg.phase
    requires u.counters == s.counters[Slot(cfg, y) := 0] && u.log == s.log
    requires u.procs[p := u.procs[p].(pc := Free)] == s.procs[p := s.procs[p].(pc := Free)]
    requires ClearedBy(cfg, u, t, p, y + 1, b)
    ensures ClearedBy(cfg, s, t, p, y, b)
  {
    hide Slot;
    forall x: int {:trigger Slot(cfg, x)} | y <= x < y + cfg.phase
      ensures t.counters[Slot(cfg, x)] == if x < b then 0 else s.counters[Slot(cfg, x)]
    {
      SlotNear(cfg, x, y);
      if x == y {
        ModUp(cfg, y);
        assert y + cfg.phase >= b;
        assert t.counters[Slot(cfg, y + cfg.phase)] == u.counters[Slot(cfg, y + cfg.phase)];
      }
    }
  }

  /** Everyone waits at the strong barrier `b`, the last one before being `a`; the first
      `k` have left again. */
  ghost predicate SomeLeft(cfg: Config, s: State, a: int, b: nat, k: nat) {
    && Shape(cfg, s) && s.lastUsed == Slot(cfg, if k == 0 then a else b) && Fresh(s, b + 1)
    && (forall p | 0 <= p < cfg.n :: s.procs[p].pos == b + 1 && s.procs[p].pc == if p < k then Free else Spin)
    && (if k == 0 then Counts(cfg, s, a, y => if 0 <= y <= b then cfg.n else 0)
        else Counts(cfg, s, b, y => if y == b then cfg.n else 0))
  }

  lemma AllWait(cfg: Config, s: State, a: int, b: nat)
    requires SomeArrived(cfg, s, a, a, b, cfg.n) && cfg.strong(b)
    ensures SomeLeft(cfg, s, a, b, 0)
  {
    hide Slot;
  }

  /** Seeing the counter full, and reading the last barrier used. */
  lemma Sees(cfg: Config, s: State, p: nat, b: nat) returns (t: State)
    requires Shape(cfg, s) && p < cfg.n && s.procs[p].pos == b + 1 && s.procs[p].pc == Spin
    requires s.counters[Slot(cfg, b)] == cfg.n
    ensures Reaches(cfg, s, t) && Shape(cfg, t)
    ensures t.procs[p].pc.Clearing? && t.procs[p].pc.i == s.lastUsed && t.procs[p].pos == b + 1
    ensures t.counters == s.counters && t.lastUsed == s.lastUsed && t.log == s.log
    ensures t.procs == s.procs[p := t.procs[p]]
  {
    hide Slot;
    var u := Step(cfg, s, p);
    Goes(cfg, s, p);
    StepShape(cfg, s, p);
    t := Step(cfg, u, p);
    Goes(cfg, u, p);
    StepShape(cfg, u, p);
    Then(cfg, s, u, t);
  }

  /** One processor leaves: the first clears the counters back to the last strong
      barrier, the others find nothing left to clear. */
  lemma Leaves(cfg: Config, s: State, a: int, b: nat, k: nat) returns (t: State)
    requires SomeLeft(cfg, s, a, b, k) && k < cfg.n && -1 <= a < b < a + cfg.phase
    ensures Reaches(cfg, s, t) && SomeLeft(cfg, t, a, b, k + 1)
  {
    hide Slot, Reaches, Step;
    FullAt(cfg, s, a, b, k);
    var u := Sees(cfg, s, k, b);
    t := Clears(cfg, u, k, if k == 0 then a else b, b);
    Then(cfg, s, u, t);
    SameLog(s, u, b + 1);
    SameLog(u, t, b + 1);
    LeftCounts(cfg, s, u, t, a, b, k);
    hide Counts, Fresh;
  }

  lemma FullAt(cfg: Config, s: State, a: int, b: nat, k: nat)
    requires SomeLeft(cfg, s, a, b, k) && -1 <= a < b < a + cfg.phase
    ensures s.counters[Slot(cfg, b)] == cfg.n
  {
    hide Slot;
  }

  lemma SameLog(s: State, t: State, x: int)
    requires s.log == t.log && Fresh(s, x)
    ensures Fresh(t, x)
  {
    forall y: int | y >= x
      ensures LogAt(t, y) == []
    {
      assert LogAt(s, y) == [];
    }
  }

  lemma LeftCounts(cfg: Config, s: State, u: State, t: State, a: int, b: nat, k: nat)
    requires SomeLeft(cfg, s, a, b, k) && k < cfg.n && -1 <= a < b < a + cfg.phase
    requires Shape(cfg, u) && Shape(cfg, t) && u.counters == s.counters
    requires ClearedBy(cfg, u, t, k, if k == 0 then a else b, b)
    ensures Counts(cfg, t, b, y => if y == b then cfg.n else 0)
  {
    hide Slot;
    forall y: int {:trigger Slot(cfg, y)} | b <= y < b + cfg.phase
      ensures t.counters[Slot(cfg, y)] == if y == b then cfg.n else 0
    {
      if k == 0 && y >= a + cfg.phase {
        ModUp(cfg, y - cfg.phase);
        assert t.counters[Slot(cfg, y - cfg.phase)] == 0;
      }
    }
  }

  lemma {:induction false} EveryoneLeaves(cfg: Config, s: State, a: int, b: nat, k: nat) returns (t: State)
    requires SomeLeft(cfg, s, a, b, k) && k <= cfg.n && -1 <= a < b < a + cfg.phase
    ensures Reaches(cfg, s, t) && SomeLeft(cfg, t, a, b, cfg.n)
    decreases cfg.n - k
  {
    hide SomeLeft, Slot;
    LeftShape(cfg, s, a, b, k);
    if k == cfg.n {
      t := s;
      Stays(cfg, s);
    } else {
      var u := Leaves(cfg, s, a, b, k);
      t := EveryoneLeaves(cfg, u, a, b, k + 1);
      Then(cfg, s, u, t);
    }
  }

  lemma LeftShape(cfg: Config, s: State, a: int, b: nat, k: nat)
    requires SomeLeft(cfg, s, a, b, k)
    ensures Shape(cfg, s)
  {}

  lemma AllLeft(cfg: Config, s: State, a: int, b: nat)
    requires SomeLeft(cfg, s, a, b, cfg.n) && cfg.n > 0
    ensures AllAtOnce(cfg, s, b, b + 1)
  {
    hide Slot;
  }

  /** Everyone passes the weak barriers up to the next strong one, and waits there. */
  lemma EveryoneWaits(cfg: Config, s: State, a: int, b: nat) returns (t: State)
    requires -1 <= a < b < a + cfg.phase && cfg.strong(b) && AllAtOnce(cfg, s, a, a + 1)
    requires forall z: int | a < z < b :: !cfg.IsStrong(z)
    ensures Reaches(cfg, s, t) && SomeLeft(cfg, t, a, b, 0)
  {
    hide SomeArrived, AllAtOnce, SomeLeft;
    var u := EveryonePasses(cfg, s, a, a + 1, b);
    NoneYet(cfg, u, a, b);
    t := EveryoneArrives(cfg, u, a, a, b, 0);
    AllWait(cfg, t, a, b);
    Then(cfg, s, u, t);
  }

  // ---- up to the first gap -----------------------------------------------------------

  /** The next strong barrier after `a`, up to a bound by which there is one. */
  lemma {:induction false} FirstStrong(cfg: Config, a: int, x: int, bound: int) returns (b: int)
    requires -1 <= a < x <= bound && cfg.IsStrong(bound) && forall z: int | a < z < x :: !cfg.IsStrong(z)
    ensures a < b <= bound && cfg.IsStrong(b) && forall z: int | a < z < b :: !cfg.IsStrong(z)
    decreases bound - x
  {
    if cfg.IsStrong(x) {
      b := x;
    } else {
      b := FirstStrong(cfg, a, x + 1, bound);
    }
  }

  /** Strong barriers before `a` are close enough together. */
  ghost predicate SpacedBefore(cfg: Config, a: int) {
    forall c: int {:trigger cfg.TwoWithin(c)} | -1 <= c < a && (c == -1 || cfg.IsStrong(c)) :: cfg.TwoWithin(c)
  }

  lemma Beginning(cfg: Config)
    requires cfg.phase > 0
    ensures AllAtOnce(cfg, Init(cfg), -1, 0) && Reaches(cfg, Init(cfg), Init(cfg))
  {
    Stays(cfg, Init(cfg));
    ModUp(cfg, -1);
    ModInt(cfg.phase, cfg.phase - 1, 0);
  }

  /** From one strong barrier that everyone has left there is a schedule to the next
      one that everyone leaves. */
  lemma NextStrong(cfg: Config, s: State, a: int, b: int) returns (t: State)
    requires cfg.n > 0 && -1 <= a < b < a + cfg.phase && cfg.IsStrong(b) && AllAtOnce(cfg, s, a, a + 1)
    requires forall z: int | a < z < b :: !cfg.IsStrong(z)
    ensures Reaches(cfg, s, t) && AllAtOnce(cfg, t, b, b + 1)
  {
    hide AllAtOnce, SomeLeft;
    var u := EveryoneWaits(cfg, s, a, b);
    t := EveryoneLeaves(cfg, u, a, b, 0);
    AllLeft(cfg, t, a, b);
    Then(cfg, s, u, t);
  }

  /** There is a schedule to where everyone has left `a`, if the strong barriers before
      it are close enough together. `c` is one reached already. */
  lemma {:induction false} ToStrong(cfg: Config, s: State, c: int, a: int) returns (t: State)
    requires cfg.n > 0 && -1 <= c <= a && AllAtOnce(cfg, s, c, c + 1) && (c == -1 || cfg.IsStrong(c))
    requires (a == -1 || cfg.IsStrong(a)) && SpacedBefore(cfg, a)
    ensures Reaches(cfg, s, t) && AllAtOnce(cfg, t, a, a + 1)
    decreases a - c
  {
    hide AllAtOnce;
    AllShape(cfg, s, c, c + 1);
    if c == a {
      t := s;
      Stays(cfg, s);
    } else {
      assert cfg.TwoWithin(c);
      var d, e :| c < d < e < c + cfg.phase && cfg.IsStrong(d) && cfg.IsStrong(e);
      var b := FirstStrong(cfg, c, c + 1, if d < a then d else a);
      var u := NextStrong(cfg, s, c, b);
      t := ToStrong(cfg, u, b, a);
      Then(cfg, s, u, t);
    }
  }

  /** Of the places where the spacing fails there is a first. */
  lemma {:induction false} FirstGap(cfg: Config, a: int, x: int) returns (g: int)
    requires -1 <= x <= a && (a == -1 || cfg.IsStrong(a)) && !cfg.TwoWithin(a) && SpacedBefore(cfg, x)
    ensures -1 <= g && (g == -1 || cfg.IsStrong(g)) && !cfg.TwoWithin(g) && SpacedBefore(cfg, g)
    decreases a - x
  {
    hide Config.TwoWithin;
    if (x == -1 || cfg.IsStrong(x)) && !cfg.TwoWithin(x) {
      g := x;
    } else {
      g := FirstGap(cfg, a, x + 1);
    }
  }

  // ---- past the gap ------------------------------------------------------------------

  /** The next arrival of some processor would fetch a wrong count. */
  ghost predicate Miscounts(cfg: Config, s: State) {
    Shape(cfg, s) && !CountsArrivals(cfg, s)
  }

  lemma MiscountAt(cfg: Config, s: State, p: nat)
    requires Shape(cfg, s) && p < cfg.n && s.procs[p].pc.Free?
    requires s.counters[Slot(cfg, s.procs[p].pos)] != |LogAt(s, s.procs[p].pos)|
    ensures Miscounts(cfg, s)
  {}

  /** What one processor changes by passing the barriers from `x` up to `y`: counter
      and record of each barrier it arrives at. */
  ghost predicate PassedBy(cfg: Config, s: State, t: State, p: nat, x: nat, y: nat)
    requires Shape(cfg, s) && Shape(cfg, t) && p < cfg.n
  {
    && t.lastUsed == s.lastUsed
    && (forall q | 0 <= q < cfg.n && q != p :: t.procs[q] == s.procs[q])
    && t.procs[p].pos == y && t.procs[p].pc == Free
    && (forall z: int | !(x <= z < y) :: LogAt(t, z) == LogAt(s, z))
    && (forall i: nat | i < cfg.phase && (forall z: int {:trigger Slot(cfg, z)} | x <= z < y :: Slot(cfg, z) != i) ::
          t.counters[i] == s.counters[i])
  }

  lemma {:induction false} Passes(cfg: Config, s: State, p: nat, x: nat, y: nat) returns (t: State)
    requires Shape(cfg, s) && p < cfg.n && s.procs[p].pos == x <= y && s.procs[p].pc == Free
    requires forall z: int | x <= z < y :: !cfg.IsStrong(z)
    ensures Reaches(cfg, s, t) && Shape(cfg, t) && PassedBy(cfg, s, t, p, x, y)
    decreases y - x
  {
    if x == y {
      t := s;
      Stays(cfg, s);
    } else {
      var u := Step(cfg, s, p);
      Goes(cfg, s, p);
      PassesOne(cfg, s, p, x);
      t := Passes(cfg, u, p, x + 1, y);
      hide Step, Slot;
      Then(cfg, s, u, t);
      PassesMore(cfg, s, u, t, p, x, y);
    }
  }

  lemma PassesOne(cfg: Config, s: State, p: nat, x: nat)
    requires Shape(cfg, s) && p < cfg.n && s.procs[p].pos == x && s.procs[p].pc == Free && !cfg.IsStrong(x)
    ensures Shape(cfg, Step(cfg, s, p)) && PassedBy(cfg, s, Step(cfg, s, p), p, x, x + 1)
  {
    hide Slot;
  }

  lemma PassesMore(cfg: Config, s: State, u: State, t: State, p: nat, x: nat, y: nat)
    requires Shape(cfg, s) && Shape(cfg, u) && Shape(cfg, t) && p < cfg.n && x < y
    requires PassedBy(cfg, s, u, p, x, x + 1) && PassedBy(cfg, u, t, p, x + 1, y)
    ensures PassedBy(cfg, s, t, p, x, y)
  {
    hide Slot, LogAt;
    forall i: nat | i < cfg.phase && (forall z: int {:trigger Slot(cfg, z)} | x <= z < y :: Slot(cfg, z) != i)
      ensures t.counters[i] == s.counters[i]
    {
      assert Slot(cfg, x) != i;
      assert forall z: int {:trigger Slot(cfg, z)} | x <= z < x + 1 :: z == x;
    }
  }

  /** With no strong barrier in a round behind `a`, one processor comes to the counter of
      `a` again, or of the first barrier of all. */
  lemma NoStrong(cfg: Config, s: State, a: int) returns (t: State)
    requires cfg.n > 0 && -1 <= a && AllAtOnce(cfg, s, a, a + 1)
    requires forall z: int | a < z < a + cfg.phase :: !cfg.IsStrong(z)
    ensures Reaches(cfg, s, t) && Miscounts(cfg, t)
  {
    if a >= 0 {
      t := Passes(cfg, s, 0, a + 1, a + cfg.phase);
      ModUp(cfg, a);
      NotAmong(cfg, a, a + 1, a + cfg.phase);
      assert s.counters[Slot(cfg, a)] == cfg.n;
      assert LogAt(s, a + cfg.phase) == [];
      MiscountAt(cfg, t, 0);
    } else {
      t := FirstRound(cfg, s);
    }
  }

  /** Positions within a round of `a` have other counters than `a`. */
  lemma NotAmong(cfg: Config, a: int, x: int, y: int)
    requires cfg.phase > 0 && a < x && y <= a + cfg.phase
    ensures forall z: int {:trigger Slot(cfg, z)} | x <= z < y :: Slot(cfg, z) != Slot(cfg, a)
  {
    hide Slot;
    forall z: int {:trigger Slot(cfg, z)} | x <= z < y
      ensures Slot(cfg, z) != Slot(cfg, a)
    {
      SlotNear(cfg, z, a);
    }
  }

  /** The first round has no strong barrier before its last counter: everyone goes that
      far, and whoever goes on to the second round finds the first counter used. */
  lemma FirstRound(cfg: Config, s: State) returns (t: State)
    requires cfg.n > 0 && AllAtOnce(cfg, s, -1, 0)
    requires forall z: int | -1 < z < -1 + cfg.phase :: !cfg.IsStrong(z)
    ensures Reaches(cfg, s, t) && Miscounts(cfg, t)
  {
    var last := cfg.phase - 1;
    var u := EveryonePasses(cfg, s, -1, 0, last);
    if cfg.strong(last) {
      t := LastIsStrong(cfg, u);
    } else {
      t := LastIsWeak(cfg, u);
    }
    Then(cfg, s, u, t);
  }

  /** The counter at the end of the first round is still zero, the others are full. */
  lemma EndOfRound(cfg: Config, s: State)
    requires cfg.phase > 0 && AllAtOnce(cfg, s, -1, cfg.phase - 1)
    ensures s.counters[Slot(cfg, cfg.phase - 1)] == 0 && Slot(cfg, cfg.phase - 1) == s.lastUsed
    ensures cfg.phase > 1 ==> s.counters[Slot(cfg, 0)] == cfg.n
    ensures Slot(cfg, cfg.phase) == Slot(cfg, 0)
    ensures cfg.phase > 1 ==> Slot(cfg, 0) != Slot(cfg, cfg.phase - 1)
  {
    ModUp(cfg, -1);
    ModUp(cfg, 0);
    SlotNear(cfg, 0, cfg.phase - 1);
    hide Slot;
    assert s.counters[Slot(cfg, -1)] == 0;
  }

  lemma LastIsWeak(cfg: Config, s: State) returns (t: State)
    requires cfg.n > 0 && cfg.phase > 0 && AllAtOnce(cfg, s, -1, cfg.phase - 1) && !cfg.strong(cfg.phase - 1)
    ensures Reaches(cfg, s, t) && Miscounts(cfg, t)
  {
    EndOfRound(cfg, s);
    t := Step(cfg, s, 0);
    Goes(cfg, s, 0);
    StepShape(cfg, s, 0);
    hide Slot;
    assert LogAt(s, cfg.phase) == [];
    MiscountAt(cfg, t, 0);
  }

  lemma RoundBegins(cfg: Config, s: State)
    requires cfg.phase > 0 && AllAtOnce(cfg, s, -1, cfg.phase - 1)
    ensures SomeArrived(cfg, s, -1, 0, cfg.phase - 1, 0)
  {
    EndOfRound(cfg, s);
    hide Slot;
  }

  /** Whoever leaves the last barrier of the round finds nothing to clear. */
  lemma LastIsStrong(cfg: Config, s: State) returns (t: State)
    requires cfg.n > 0 && cfg.phase > 0 && AllAtOnce(cfg, s, -1, cfg.phase - 1) && cfg.strong(cfg.phase - 1)
    ensures Reaches(cfg, s, t) && Miscounts(cfg, t)
  {
    hide AllAtOnce, SomeArrived, Miscounts;
    EndOfRound(cfg, s);
    RoundBegins(cfg, s);
    var u := EveryoneArrives(cfg, s, -1, 0, cfg.phase - 1, 0);
    t := LastLeaves(cfg, u);
    Then(cfg, s, u, t);
  }

  lemma LastLeaves(cfg: Config, s: State) returns (t: State)
    requires cfg.n > 0 && cfg.phase > 0 && cfg.strong(cfg.phase - 1)
    requires SomeArrived(cfg, s, -1, 0, cfg.phase - 1, cfg.n)
    ensures Reaches(cfg, s, t) && Miscounts(cfg, t)
  {
    ModUp(cfg, -1);
    ModUp(cfg, 0);
    hide Slot;
    assert s.counters[Slot(cfg, 0)] == cfg.n && s.counters[Slot(cfg, cfg.phase - 1)] == cfg.n;
    var v := Sees(cfg, s, 0, cfg.phase - 1);
    assert LogAt(s, cfg.phase) == [];
    assert LogAt(v, cfg.phase) == [];
    t := LeavesAtOnce(cfg, v);
    Then(cfg, s, v, t);
  }

  lemma LeavesAtOnce(cfg: Config, s: State) returns (t: State)
    requires Shape(cfg, s) && cfg.n > 0 && cfg.phase > 0 && ClearsFrom(cfg, s, 0, cfg.phase - 1, cfg.phase - 1)
    requires s.counters[Slot(cfg, 0)] == cfg.n && LogAt(s, cfg.phase) == []
    ensures Reaches(cfg, s, t) && Miscounts(cfg, t)
  {
    ModUp(cfg, 0);
    t := Step(cfg, s, 0);
    Goes(cfg, s, 0);
    StepShape(cfg, s, 0);
    hide Slot, Reaches;
    assert LogAt(t, cfg.phase) == [];
    MiscountAt(cfg, t, 0);
  }

  // ---- one strong barrier in the gap -------------------------------------------------

  /** With one strong barrier `b` in a round behind `a`: one processor begins to leave it
      and is about to clear the counter of `a`. A second leaves it, and arrives at the
      barrier that uses that counter again. Then the first clears it. */
  lemma OneStrong(cfg: Config, s: State, a: int, b: nat) returns (t: State)
    requires cfg.n >= 2 && -1 <= a < b < a + cfg.phase && cfg.strong(b) && AllAtOnce(cfg, s, a, a + 1)
    requires forall z: int | a < z < a + cfg.phase && z != b :: !cfg.IsStrong(z)
    ensures Reaches(cfg, s, t) && Miscounts(cfg, t)
  {
    hide Slot, AllAtOnce, SomeLeft, Miscounts;
    var s1 := EveryoneWaits(cfg, s, a, b);
    var s2 := SlowStarts(cfg, s1, a, b);
    Then(cfg, s, s1, s2);
    var s3 := FastLeaves(cfg, s2, a, b);
    Then(cfg, s, s2, s3);
    t := SlowClears(cfg, s3, a, b);
    Then(cfg, s, s3, t);
  }

  /** Processor 0 is about to clear the counters from that of `a` on; processor 1 waits. */
  ghost predicate Slow(cfg: Config, s: State, a: int, b: nat) {
    && Shape(cfg, s) && cfg.n >= 2 && s.lastUsed == Slot(cfg, a) && Fresh(s, b + 1)
    && ClearsFrom(cfg, s, 0, a, b)
    && s.procs[1].pos == b + 1 && s.procs[1].pc == Spin && s.counters[Slot(cfg, b)] == cfg.n
  }

  lemma SlowStarts(cfg: Config, s: State, a: int, b: nat) returns (t: State)
    requires cfg.n >= 2 && SomeLeft(cfg, s, a, b, 0) && -1 <= a < b < a + cfg.phase
    ensures Reaches(cfg, s, t) && Slow(cfg, t, a, b)
  {
    assert s.counters[Slot(cfg, b)] == cfg.n by { hide Slot; }
    hide Slot;
    t := Sees(cfg, s, 0, b);
    SameLog(s, t, b + 1);
  }

  /** Processor 1 has come round to the counter of `a`, where it alone has arrived. */
  ghost predicate Round(cfg: Config, s: State, a: int, b: nat) {
    && Shape(cfg, s) && cfg.n >= 2 && a + cfg.phase >= 0
    && ClearsFrom(cfg, s, 0, a, b)
    && |LogAt(s, a + cfg.phase)| == 1
  }

  lemma FastFrees(cfg: Config, s: State, a: int, b: nat) returns (t: State)
    requires Slow(cfg, s, a, b) && -1 <= a < b < a + cfg.phase
    ensures Reaches(cfg, s, t) && Shape(cfg, t) && ClearsFrom(cfg, t, 0, a, b) && Fresh(t, b + 1)
    ensures t.procs[1].pos == b + 1 && t.procs[1].pc == Free
  {
    hide Slot;
    var u := Sees(cfg, s, 1, b);
    t := Clears(cfg, u, 1, a, b);
    Then(cfg, s, u, t);
    hide Reaches;
    SameLog(s, u, b + 1);
    SameLog(u, t, b + 1);
  }

  lemma FastLeaves(cfg: Config, s: State, a: int, b: nat) returns (t: State)
    requires Slow(cfg, s, a, b) && -1 <= a < b < a + cfg.phase
    requires forall z: int | b < z < a + cfg.phase :: !cfg.IsStrong(z)
    ensures Reaches(cfg, s, t) && Round(cfg, t, a, b)
  {
    hide Slot, Step, Reaches;
    var v := FastFrees(cfg, s, a, b);
    var w := Passes(cfg, v, 1, b + 1, a + cfg.phase);
    Then(cfg, s, v, w);
    assert LogAt(v, a + cfg.phase) == [];
    assert LogAt(w, a + cfg.phase) == [];
    t := FastArrives(cfg, w, a, b);
    Then(cfg, s, w, t);
  }

  lemma FastArrives(cfg: Config, s: State, a: int, b: nat) returns (t: State)
    requires Shape(cfg, s) && cfg.n >= 2 && -1 <= a < b < a + cfg.phase && ClearsFrom(cfg, s, 0, a, b)
    requires s.procs[1].pos == a + cfg.phase && s.procs[1].pc == Free && LogAt(s, a + cfg.phase) == []
    ensures Reaches(cfg, s, t) && Round(cfg, t, a, b)
  {
    t := Step(cfg, s, 1);
    Goes(cfg, s, 1);
    StepShape(cfg, s, 1);
    hide Slot, Reaches;
    assert LogAt(t, a + cfg.phase) == [] + [1];
  }

  lemma SlowClears(cfg: Config, s: State, a: int, b: nat) returns (t: State)
    requires Round(cfg, s, a, b) && -1 <= a < b < a + cfg.phase
    requires forall z: int | b < z < a + cfg.phase :: !cfg.IsStrong(z)
    ensures Reaches(cfg, s, t) && Miscounts(cfg, t)
  {
    NotAmong(cfg, a, b + 1, a + cfg.phase);
    ModUp(cfg, a);
    hide Slot, Step, Reaches;
    var u := Clears(cfg, s, 0, a, b);
    assert u.counters[Slot(cfg, a)] == 0;
    t := Passes(cfg, u, 0, b + 1, a + cfg.phase);
    Then(cfg, s, u, t);
    assert LogAt(u, a + cfg.phase) == LogAt(s, a + cfg.phase);
    assert LogAt(t, a + cfg.phase) == LogAt(u, a + cfg.phase);
    hide LogAt;
    assert t.counters[Slot(cfg, a)] == u.counters[Slot(cfg, a)];
    MiscountAt(cfg, t, 0);
  }

  // ---- the equivalence ---------------------------------------------------------------

  /** From where everyone has left `a`, behind which there are not two strong barriers
      within a round, there is a schedule that miscounts. */
  lemma GapMiscounts(cfg: Config, s: State, a: int) returns (t: State)
    requires cfg.n >= 2 && -1 <= a && AllAtOnce(cfg, s, a, a + 1) && !cfg.TwoWithin(a)
    ensures Reaches(cfg, s, t) && Miscounts(cfg, t)
  {
    hide AllAtOnce, Reaches, Miscounts;
    if b :| a < b < a + cfg.phase && cfg.IsStrong(b) {
      t := OneStrong(cfg, s, a, b);
    } else {
      t := NoStrong(cfg, s, a);
    }
  }

  /** If the strong barriers are not close enough together, some schedule miscounts. */
  lemma {:induction false} UnspacedMiscounts(cfg: Config) returns (acts: seq<nat>)
    requires cfg.n >= 2 && cfg.phase > 0 && !cfg.Spaced()
    ensures IsSchedule(cfg, acts) && Miscounts(cfg, Run(cfg, Init(cfg), acts))
  {
    hide AllAtOnce, Miscounts, Run, Config.TwoWithin;
    var a: int :| (a == -1 || cfg.IsStrong(a)) && !cfg.TwoWithin(a);
    Beginning(cfg);
    var g := FirstGap(cfg, a, -1);
    var s := ToStrong(cfg, Init(cfg), -1, g);
    var t := GapMiscounts(cfg, s, g);
    Then(cfg, Init(cfg), s, t);
    acts :| IsSchedule(cfg, acts) && Run(cfg, Init(cfg), acts) == t;
  }

  /** What barriers promise in one state. */
  ghost predicate Safe(cfg: Config, s: State) {
    Shape(cfg, s) && NobodyEarly(cfg, s) && FullWhileLeft(cfg, s) && CountsArrivals(cfg, s) && PlacesDiffer(cfg, s)
  }

  /** For two processors or more, every schedule keeps what barriers promise if and only
      if behind every strong barrier, and behind the start, two more strong ones come
      within a round of the counters. */
  lemma {:induction false} SafeExactly(cfg: Config)
    requires cfg.n >= 2 && cfg.phase > 0
    ensures (forall acts {:trigger IsSchedule(cfg, acts)} | IsSchedule(cfg, acts) ::
      Safe(cfg, Run(cfg, Init(cfg), acts)))
            <==> cfg.Spaced()
  {
    hide Run, Config.Spaced, NobodyEarly, FullWhileLeft, CountsArrivals, PlacesDiffer;
    if cfg.Spaced() {
      forall acts | IsSchedule(cfg, acts)
        ensures Safe(cfg, Run(cfg, Init(cfg), acts))
      {
        BarriersAreSafe(cfg, acts);
      }
    } else {
      var acts := UnspacedMiscounts(cfg);
    }
  }

  /** The collectors' sequences: every weak barrier is followed by a strong one, and
      there are at least five counters. */
  lemma CollectorsSpaced(cfg: Config)
    requires cfg.phase >= 5 && forall x: nat :: cfg.strong(x) || cfg.strong(x + 1)
    ensures cfg.Spaced()
  {
    forall a: int | a == -1 || cfg.IsStrong(a)
      ensures cfg.TwoWithin(a)
    {
      assert cfg.strong(a + 1) || cfg.strong(a + 2);
      var b := if cfg.IsStrong(a + 1) then a + 1 else a + 2;
      assert cfg.strong(b + 1) || cfg.strong(b + 2);
      var c := if cfg.IsStrong(b + 1) then b + 1 else b + 2;
      assert cfg.IsStrong(b) && cfg.IsStrong(c);
    }
  }
}

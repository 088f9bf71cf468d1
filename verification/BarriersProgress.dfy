/** With strong barriers close enough together nobody is ever stuck: from every state of
    every schedule all processors can be brought past any barrier. */
module BarriersProgress {
  import opened Counting
  import opened Barriers

  /** How far a processor is from arriving at its next barrier. */
  ghost function ToFree(s: State, proc: Proc): nat {
    match proc.pc
    case Free => 0
    case Clearing(_, y) => 1 + if y <= s.last then s.last - y else 0
    case Passed => 2 + if s.prev <= s.last then s.last - s.prev else 0
    case Spin => 3 + if s.prev <= s.last then s.last - s.prev else 0
  }

  ghost function AllToFree(s: State): nat { Sum(s.procs, proc => ToFree(s, proc)) }

  /** How many barriers a processor has yet to arrive at, of the first `x`. */
  ghost function Behind(x: nat, proc: Proc): nat { if proc.pos < x then x - proc.pos else 0 }

  ghost function AllBehind(x: nat, s: State): nat { Sum(s.procs, proc => Behind(x, proc)) }

  /** Where everybody has arrived the counter is full. */
  lemma FullForLast(cfg: Config, s: State, p: nat)
    requires Inv(cfg, s) && cfg.Spaced() && p < cfg.n && s.procs[p].pc.Spin?
    requires forall q | 0 <= q < cfg.n :: s.procs[p].pos <= s.procs[q].pos
    ensures s.counters[Slot(cfg, s.procs[p].pos - 1)] == cfg.n
  {
    var x := s.procs[p].pos - 1;
    assert ProcOk(cfg, s, p) && LogOk(cfg, s, x) && LastOk(cfg, s);
    AllLogged(cfg, s, x);
    LastInRound(cfg, s);
    assert CounterOk(cfg, s, x);
    hide Slot, Cleared;
    assert x == s.last;
  }

  lemma AllLogged(cfg: Config, s: State, x: nat)
    requires Shape(cfg, s) && LogOk(cfg, s, x) && forall q | 0 <= q < cfg.n :: s.procs[q].pos > x
    ensures |LogAt(s, x)| == cfg.n
  {
    var l := LogAt(s, x);
    ElemsCount(l);
    BelowCount(cfg.n);
    assert Elems(l) == Below(cfg.n);
  }

  /** A processor that is behind nobody, or not waiting, comes nearer to its next arrival. */
  lemma MoveOn(cfg: Config, s: State, p: nat)
    requires Inv(cfg, s) && cfg.Spaced() && p < cfg.n && s.procs[p].pc != Free
    requires forall q | 0 <= q < cfg.n :: s.procs[p].pos <= s.procs[q].pos
    ensures var t := Step(cfg, s, p);
            && t.last == s.last && t.prev == s.prev && t.procs == s.procs[p := t.procs[p]]
            && t.procs[p].pos == s.procs[p].pos && ToFree(t, t.procs[p]) < ToFree(s, s.procs[p])
  {
    assert ProcOk(cfg, s, p) && LastOk(cfg, s);
    if s.procs[p].pc.Spin? {
      FullForLast(cfg, s, p);
    }
    hide Slot, LogAt, Cleared;
  }

  /** Some processor has arrived at no more barriers than any other. */
  lemma {:induction false} Hindmost(procs: seq<Proc>) returns (p: nat)
    requires procs != []
    ensures p < |procs| && forall q | 0 <= q < |procs| :: procs[p].pos <= procs[q].pos
  {
    var last := |procs| - 1;
    p := last;
    if last > 0 {
      var q := Hindmost(procs[..last]);
      if procs[q].pos < procs[last].pos {
        p := q;
      }
    }
  }

  /** One step of the hindmost processor brings it past a barrier, or nearer to that. */
  lemma Nearer(cfg: Config, s: State, p: nat, x: nat)
    requires Inv(cfg, s) && cfg.Spaced() && p < cfg.n && s.procs[p].pos < x
    requires forall q | 0 <= q < cfg.n :: s.procs[p].pos <= s.procs[q].pos
    ensures var t := Step(cfg, s, p);
            || AllBehind(x, t) < AllBehind(x, s)
            || (AllBehind(x, t) == AllBehind(x, s) && AllToFree(t) < AllToFree(s))
  {
    var t := Step(cfg, s, p);
    if s.procs[p].pc.Free? {
      assert t.procs == s.procs[p := t.procs[p]] && t.procs[p].pos == s.procs[p].pos + 1 by { hide Slot, LogAt; }
    } else {
      MoveOn(cfg, s, p);
    }
    hide Inv, Step, Sum;
    SumUpdate(s.procs, p, t.procs[p], proc => Behind(x, proc));
    if !s.procs[p].pc.Free? {
      SumUpdate(s.procs, p, t.procs[p], proc => ToFree(s, proc));
      SameToFree(s, t);
    }
  }

  lemma SameToFree(s: State, t: State)
    requires t.last == s.last && t.prev == s.prev
    ensures AllToFree(t) == Sum(t.procs, proc => ToFree(s, proc))
  {
    SumSame(t.procs, proc => ToFree(t, proc), proc => ToFree(s, proc));
  }

  /** From every state of every schedule all processors can be brought past the first `x`
      barriers, whatever `x`. */
  lemma {:induction false} CanPass(cfg: Config, s: State, x: nat) returns (acts: seq<nat>)
    requires Inv(cfg, s) && cfg.Spaced()
    ensures forall k | 0 <= k < |acts| :: acts[k] < cfg.n
    ensures forall p | 0 <= p < cfg.n :: Run(cfg, s, acts).procs[p].pos >= x
    decreases AllBehind(x, s), AllToFree(s)
  {
    acts := [];
    assert Shape(cfg, s) && cfg.n > 0;
    var p := Hindmost(s.procs);
    if s.procs[p].pos < x {
      Nearer(cfg, s, p, x);
      StepInv(cfg, s, p);
      hide Inv, Step, Config.Spaced, AllBehind, AllToFree;
      var rest := CanPass(cfg, Step(cfg, s, p), x);
      acts := [p] + rest;
      assert acts[0] == p && acts[1..] == rest;
    }
  }

  /** However a run has gone so far, it can be gone on with so that everybody passes as
      many barriers as one likes. */
  lemma {:induction false} RunsCanPass(cfg: Config, acts: seq<nat>, x: nat) returns (more: seq<nat>)
    requires cfg.n > 0 && cfg.phase > 0 && cfg.Spaced() && forall k | 0 <= k < |acts| :: acts[k] < cfg.n
    ensures forall k | 0 <= k < |more| :: more[k] < cfg.n
    ensures forall p | 0 <= p < cfg.n :: Run(cfg, Run(cfg, Init(cfg), acts), more).procs[p].pos >= x
  {
    InitInv(cfg);
    RunInv(cfg, Init(cfg), acts);
    more := CanPass(cfg, Run(cfg, Init(cfg), acts), x);
  }
}

/** Several processors copying the same object: its tag says who copies it. Each step is
    one access to shared memory. */
module Ownership {
  import opened Tags
  import opened Counting

  /** A processor between reading the tag and returning the replica. `Dead` stands for
      the collector's giving up on a tag it does not expect. */
  datatype Pc =
    | Start
    | Compare(tag: nat)
    | Stalled
    | Owner(tag: nat)
    | Copying(tag: nat, obj: nat, next: nat)
    | Tagging(tag: nat, obj: nat)
    | Forwarding(obj: nat)
    | Returned(obj: nat)
    | Dead

  datatype Replica = Replica(fields: seq<nat>, tag: nat)

  /** The object's tag word and fields, the replicas made, and the processors. */
  datatype State = State(tag: nat, fields: seq<nat>, replicas: map<nat, Replica>, procs: seq<Pc>)

  /** An address is free and looks like a forwarding pointer. */
  predicate FreshAddress(s: State, a: nat) { TagIsForward(a) && a !in s.replicas }

  function At(s: State, p: nat, pc: Pc): State
    requires p < |s.procs|
  {
    s.(procs := s.procs[p := pc])
  }

  /** The next step of a processor; `a` is the address an owner is given, and `junk` what
      the fresh memory holds. */
  function Step(s: State, p: nat, a: nat, junk: seq<nat>): State
    requires p < |s.procs|
  {
    match s.procs[p]
    case Start =>
      At(s, p, if TagIsForward(s.tag) then Returned(s.tag) else if s.tag == STALL_TAG then Stalled else Compare(s.tag))
    case Compare(tag) =>
      if s.tag == tag then At(s.(tag := STALL_TAG), p, Owner(tag))
      else if s.tag == STALL_TAG then At(s, p, Stalled)
      else if TagIsForward(s.tag) then At(s, p, Returned(s.tag))
      else At(s, p, Dead)
    case Stalled =>
      if s.tag == STALL_TAG then s
      else if TagIsForward(s.tag) then At(s, p, Returned(s.tag))
      else At(s, p, Dead)
    case Owner(tag) =>
      if !IsObjectTag(tag) then At(s, p, Dead)
      else if !FreshAddress(s, a) || |junk| != |s.fields| then s
      else At(s.(replicas := s.replicas[a := Replica(junk, 0)]), p, Copying(tag, a, 0))
    case Copying(tag, obj, i) =>
      if obj in s.replicas && i < |s.fields| && i < |s.replicas[obj].fields| then
        var r := s.replicas[obj];
        At(s.(replicas := s.replicas[obj := r.(fields := r.fields[i := s.fields[i]])]), p, Copying(tag, obj, i + 1))
      else At(s, p, Tagging(tag, obj))
    case Tagging(tag, obj) =>
      if obj in s.replicas then At(s.(replicas := s.replicas[obj := s.replicas[obj].(tag := tag)]), p, Forwarding(obj))
      else At(s, p, Dead)
    case Forwarding(obj) => At(s.(tag := obj), p, Returned(obj))
    case Returned(_) => s
    case Dead => s
  }

  function Init(orig: nat, fields: seq<nat>, n: nat): State { State(orig, fields, map[], seq(n, p => Start)) }

  // ---- the invariant -------------------------------------------------------------------

  predicate Owns(pc: Pc) { pc.Owner? || pc.Copying? || pc.Tagging? || pc.Forwarding? }

  /** What is true of a processor, given the object's original tag and who owns it. */
  predicate ProcOk(s: State, orig: nat, pc: Pc) {
    match pc
    case Compare(tag) => tag == orig
    case Owner(tag) => tag == orig && s.replicas == map[]
    case Copying(tag, obj, i) =>
      && tag == orig && s.replicas.Keys == {obj} && TagIsForward(obj)
      && i <= |s.fields| == |s.replicas[obj].fields| && s.replicas[obj].fields[..i] == s.fields[..i]
    case Tagging(tag, obj) => tag == orig && s.replicas.Keys == {obj} && TagIsForward(obj)
      && s.replicas[obj].fields == s.fields
    case Forwarding(obj) => TagIsForward(obj) && s.replicas == map[obj := Replica(s.fields, orig)]
    case Returned(obj) => s.tag == obj && TagIsForward(obj)
    case Dead => false
    case Stalled => s.tag != orig
    case Start => true
  }

  /** The tag is the original one, and nothing has been done; or it is the stall tag, and
      one processor owns the object; or it is the address of the one replica, which is
      complete. */
  ghost predicate Inv(s: State, orig: nat) {
    && IsObjectTag(orig) && !TagIsForward(orig) && orig != STALL_TAG
    && (forall p | 0 <= p < |s.procs| :: ProcOk(s, orig, s.procs[p]))
    && (forall p, q | 0 <= p < q < |s.procs| && Owns(s.procs[p]) :: !Owns(s.procs[q]))
    && (s.tag == STALL_TAG <==> exists p :: 0 <= p < |s.procs| && Owns(s.procs[p]))
    && (if s.tag == orig then s.replicas == map[]
        else s.tag != STALL_TAG ==> TagIsForward(s.tag) && s.replicas == map[s.tag := Replica(s.fields, orig)])
  }

  lemma ObjectTags(orig: nat)
    requires IsObjectTag(orig)
    ensures !TagIsForward(orig) && orig != STALL_TAG && !TagIsForward(STALL_TAG)
  {
    assert orig % 4 == orig % 8 % 4;
  }

  lemma InitInv(orig: nat, fields: seq<nat>, n: nat)
    requires IsObjectTag(orig)
    ensures Inv(Init(orig, fields, n), orig)
  {
    ObjectTags(orig);
  }

  /** A processor that owns nothing before or after only learns the tag. */
  lemma LearnInv(s: State, orig: nat, p: nat, pc: Pc)
    requires Inv(s, orig) && p < |s.procs| && !Owns(s.procs[p]) && !Owns(pc) && ProcOk(s, orig, pc)
    ensures Inv(At(s, p, pc), orig)
  {
    hide IsObjectTag, ProcOk, TagIsForward;
    var t := At(s, p, pc);
    if s.tag == STALL_TAG {
      var q :| 0 <= q < |s.procs| && Owns(s.procs[q]);
      assert Owns(t.procs[q]);
    }
    forall q | 0 <= q < |t.procs|
      ensures ProcOk(t, orig, t.procs[q])
    {
      SameOk(s, t, orig, if q == p then pc else s.procs[q]);
    }
  }

  lemma SameOk(s: State, t: State, orig: nat, pc: Pc)
    requires ProcOk(s, orig, pc) && t.tag == s.tag && t.replicas == s.replicas && t.fields == s.fields
    ensures ProcOk(t, orig, pc)
  {}

  /** The owner goes on. */
  lemma OwnerInv(s: State, orig: nat, p: nat, t: State)
    requires Inv(s, orig) && p < |s.procs| && Owns(s.procs[p]) && t.tag == STALL_TAG && t.fields == s.fields
    requires |t.procs| == |s.procs| && t.procs == s.procs[p := t.procs[p]] && Owns(t.procs[p])
    requires ProcOk(t, orig, t.procs[p])
    ensures Inv(t, orig)
  {
    assert s.tag == STALL_TAG;
    ObjectTags(orig);
    hide IsObjectTag, TagIsForward;
    forall q | 0 <= q < |t.procs|
      ensures ProcOk(t, orig, t.procs[q])
    {
      assert ProcOk(s, orig, s.procs[q]);
      if q != p {
        NoReturn(s, orig, q);
      }
    }
  }

  /** While the object is stalled nobody has returned. */
  lemma NoReturn(s: State, orig: nat, q: nat)
    requires Inv(s, orig) && s.tag == STALL_TAG && q < |s.procs|
    ensures !s.procs[q].Returned?
  {
    assert ProcOk(s, orig, s.procs[q]);
  }

  lemma CompareInv(s: State, orig: nat, p: nat)
    requires Inv(s, orig) && p < |s.procs| && s.procs[p] == Compare(s.tag)
    ensures Inv(Step(s, p, 0, []), orig)
  {
    assert ProcOk(s, orig, s.procs[p]) && s.tag == orig;
    ObjectTags(orig);
    hide IsObjectTag, TagIsForward;
    var t := Step(s, p, 0, []);
    assert Owns(t.procs[p]);
    forall q | 0 <= q < |t.procs|
      ensures ProcOk(t, orig, t.procs[q])
    {
      assert ProcOk(s, orig, s.procs[q]);
      assert !Owns(s.procs[q]);
    }
  }

  lemma ForwardInv(s: State, orig: nat, p: nat)
    requires Inv(s, orig) && p < |s.procs| && s.procs[p].Forwarding?
    ensures Inv(Step(s, p, 0, []), orig)
  {
    assert ProcOk(s, orig, s.procs[p]) && Owns(s.procs[p]);
    ObjectTags(orig);
    hide IsObjectTag, TagIsForward;
    var t := Step(s, p, 0, []);
    forall q | 0 <= q < |t.procs|
      ensures ProcOk(t, orig, t.procs[q]) && !Owns(t.procs[q])
    {
      assert ProcOk(s, orig, s.procs[q]);
      NoReturn(s, orig, q);
    }
  }

  /** Every step of every processor keeps the invariant. */
  lemma StepInv(s: State, orig: nat, p: nat, a: nat, junk: seq<nat>)
    requires Inv(s, orig) && p < |s.procs|
    ensures Inv(Step(s, p, a, junk), orig)
  {
    var pc := s.procs[p];
    assert ProcOk(s, orig, pc);
    if Owns(pc) {
      assert s.tag == STALL_TAG;
      if pc.Forwarding? {
        ForwardInv(s, orig, p);
      } else {
        OwnerStep(s, orig, p, a, junk);
      }
    } else if pc == Compare(s.tag) {
      CompareInv(s, orig, p);
    } else {
      LearnStep(s, orig, p, a, junk);
    }
  }

  lemma LearnStep(s: State, orig: nat, p: nat, a: nat, junk: seq<nat>)
    requires Inv(s, orig) && p < |s.procs| && !Owns(s.procs[p]) && s.procs[p] != Compare(s.tag)
    ensures Inv(Step(s, p, a, junk), orig)
  {
    var pc, t := s.procs[p], Step(s, p, a, junk);
    assert ProcOk(s, orig, pc);
    assert s.tag == orig || s.tag == STALL_TAG || TagIsForward(s.tag);
    if pc.Start? || pc.Compare? || pc.Stalled? {
      NotOriginal(s, orig, pc);
      var next := t.procs[p];
      assert t == s || t == At(s, p, next);
      if t != s {
        LearnInv(s, orig, p, next);
      }
    }
  }

  /** A stalled processor, or one that lost the race, no longer finds the original tag. */
  lemma NotOriginal(s: State, orig: nat, pc: Pc)
    requires Inv(s, orig)
    ensures pc == Compare(orig) && pc != Compare(s.tag) ==> s.tag != orig
  {}

  lemma OwnerStep(s: State, orig: nat, p: nat, a: nat, junk: seq<nat>)
    requires Inv(s, orig) && p < |s.procs| && Owns(s.procs[p]) && !s.procs[p].Forwarding?
    ensures Inv(Step(s, p, a, junk), orig)
  {
    assert ProcOk(s, orig, s.procs[p]) && s.tag == STALL_TAG;
    hide IsObjectTag, TagIsForward, Inv;
    var t := Step(s, p, a, junk);
    if s.procs[p].Copying? && s.procs[p].next < |s.fields| {
      var i := s.procs[p].next;
      assert s.fields[..i + 1] == s.fields[..i] + [s.fields[i]];
    }
    if t != s {
      OwnerInv(s, orig, p, t);
    }
  }

  /** The tag goes from the original to the stall tag to a forwarding pointer, and no
      further; a step adds a replica only when there was none. */
  lemma TagGoesOn(s: State, orig: nat, p: nat, a: nat, junk: seq<nat>)
    requires Inv(s, orig) && p < |s.procs|
    ensures var t := Step(s, p, a, junk);
            && (t.tag == s.tag || (s.tag == orig && t.tag == STALL_TAG) || (s.tag == STALL_TAG && TagIsForward(t.tag)))
            && s.replicas.Keys <= t.replicas.Keys && (t.replicas.Keys != s.replicas.Keys ==> s.replicas == map[])
  {
    assert ProcOk(s, orig, s.procs[p]);
    hide IsObjectTag, TagIsForward;
    if Owns(s.procs[p]) {
      assert s.tag == STALL_TAG;
    }
  }

  // ---- runs ------------------------------------------------------------------------------

  datatype Act = Act(p: nat, address: nat, junk: seq<nat>)

  function Run(s: State, acts: seq<Act>): (t: State)
    requires forall k | 0 <= k < |acts| :: acts[k].p < |s.procs|
    ensures |t.procs| == |s.procs|
    decreases acts
  {
    if acts == [] then s else Run(Step(s, acts[0].p, acts[0].address, acts[0].junk), acts[1..])
  }

  lemma {:induction false} RunInv(s: State, orig: nat, acts: seq<Act>)
    requires Inv(s, orig) && forall k | 0 <= k < |acts| :: acts[k].p < |s.procs|
    ensures Inv(Run(s, acts), orig) && Run(s, acts).fields == s.fields
    decreases acts
  {
    hide Inv;
    if acts != [] {
      var t := Step(s, acts[0].p, acts[0].address, acts[0].junk);
      StepInv(s, orig, acts[0].p, acts[0].address, acts[0].junk);
      RunInv(t, orig, acts[1..]);
    }
  }

  /** For any number of processors and any schedule: at most one replica is made; every
      processor that returns, returns that replica, with the object's fields and tag in
      place; and no processor meets a tag it does not expect. */
  lemma {:induction false} OneCopy(orig: nat, fields: seq<nat>, n: nat, acts: seq<Act>)
    requires IsObjectTag(orig) && forall k | 0 <= k < |acts| :: acts[k].p < n
    ensures var s := Run(Init(orig, fields, n), acts);
            && |s.replicas| <= 1
            && (forall p | 0 <= p < n && s.procs[p].Returned? ::
              s.replicas == map[s.procs[p].obj := Replica(fields, orig)])
            && (forall p | 0 <= p < n :: !s.procs[p].Dead?)
  {
    InitInv(orig, fields, n);
    RunInv(Init(orig, fields, n), orig, acts);
    var s := Run(Init(orig, fields, n), acts);
    hide Run, IsObjectTag;
    forall p | 0 <= p < n
      ensures !s.procs[p].Dead?
      ensures s.procs[p].Returned? ==> s.replicas == map[s.procs[p].obj := Replica(fields, orig)]
    {
      assert ProcOk(s, orig, s.procs[p]);
      ObjectTags(orig);
    }
    AtMostOne(s, orig);
  }

  lemma AtMostOne(s: State, orig: nat)
    requires Inv(s, orig)
    ensures |s.replicas| <= 1
  {
    if s.tag == STALL_TAG {
      var p :| 0 <= p < |s.procs| && Owns(s.procs[p]);
      assert ProcOk(s, orig, s.procs[p]);
      assert |s.replicas| == |s.replicas.Keys|;
    }
  }

  // ---- everyone can return ---------------------------------------------------------------

  /** How many steps of its own a processor is from returning. */
  ghost function Left(size: nat, pc: Pc): nat {
    match pc
    case Start => size + 6
    case Compare(_) => size + 5
    case Owner(_) => size + 4
    case Copying(_, _, i) => 3 + if i <= size then size - i else 0
    case Tagging(_, _) => 2
    case Stalled => 1
    case Forwarding(_) => 1
    case Returned(_) => 0
    case Dead => 0
  }

  /** A processor waits only while another owns the object; and whoever does not wait,
      given a fresh address if it needs one, comes nearer to returning, whatever the
      others do meanwhile. */
  lemma ComesNearer(s: State, orig: nat, p: nat, a: nat, junk: seq<nat>)
    requires Inv(s, orig) && p < |s.procs| && !s.procs[p].Returned?
    requires s.procs[p].Owner? ==> FreshAddress(s, a) && |junk| == |s.fields|
    ensures var t := Step(s, p, a, junk);
            && |t.procs| == |s.procs| && (forall q | 0 <= q < |s.procs| && q != p :: t.procs[q] == s.procs[q])
            && if s.procs[p].Stalled? && s.tag == STALL_TAG then t == s
               else Left(|s.fields|, t.procs[p]) < Left(|s.fields|, s.procs[p])
  {
    assert ProcOk(s, orig, s.procs[p]);
    hide IsObjectTag, TagIsForward;
    StepInv(s, orig, p, a, junk);
    assert ProcOk(Step(s, p, a, junk), orig, Step(s, p, a, junk).procs[p]);
  }

  /** Someone who has not returned need not wait. */
  lemma Mover(s: State, orig: nat, p: nat) returns (q: nat)
    requires Inv(s, orig) && p < |s.procs| && !s.procs[p].Returned?
    ensures q < |s.procs| && !s.procs[q].Returned? && !(s.procs[q].Stalled? && s.tag == STALL_TAG)
  {
    q := p;
    if s.procs[p].Stalled? && s.tag == STALL_TAG {
      q :| 0 <= q < |s.procs| && Owns(s.procs[q]);
    }
  }

  /** From every state that any number of racing processors can reach, they can go on so
      that all return. */
  lemma {:induction false} CanReturn(s: State, orig: nat) returns (acts: seq<Act>)
    requires Inv(s, orig)
    ensures forall k | 0 <= k < |acts| :: acts[k].p < |s.procs|
    ensures forall p | 0 <= p < |s.procs| :: Run(s, acts).procs[p].Returned?
    decreases Sum(s.procs, pc => Left(|s.fields|, pc))
  {
    acts := [];
    if p: nat :| p < |s.procs| && !s.procs[p].Returned? {
      var q := Mover(s, orig, p);
      var a := 4;
      var act := Act(q, a, s.fields);
      if s.procs[q].Owner? {
        assert ProcOk(s, orig, s.procs[q]);
      }
      var t := Step(s, q, a, s.fields);
      ComesNearer(s, orig, q, a, s.fields);
      StepInv(s, orig, q, a, s.fields);
      SameFields(s, q, a);
      assert t.procs == s.procs[q := t.procs[q]];
      SumUpdate(s.procs, q, t.procs[q], pc => Left(|s.fields|, pc));
      hide Inv, Step, Left;
      var rest := CanReturn(t, orig);
      acts := [act] + rest;
      assert acts[0] == act && acts[1..] == rest;
    }
  }

  lemma SameFields(s: State, p: nat, a: nat)
    requires p < |s.procs|
    ensures Step(s, p, a, s.fields).fields == s.fields
  {}
}

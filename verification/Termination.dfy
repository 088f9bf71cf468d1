/** When a parallel collection is over: the loop that pops shared work, does it and
    pushes what is left, and the check the last processor to leave the push room makes.
    That pops and pushes exclude each other, and that the check is made with nobody
    inside, is what rooms provide. */
module Termination {
  import opened Wrappers
  import opened Counting

  type Item = int

  /** A processor in the collection loop: about to pop; in the pop room, with whether it
      has fetched anything; working; in the push room; done with its push; out of the
      loop. `hasShared` says that it is counted as holding work, and `begun` that it has
      made the push before the loop, whose answer is not looked at. */
  datatype Pc = Ready | InPop(fetched: bool) | Working | InPush | Pushed | Stopped

  datatype Proc = Proc(local: multiset<Item>, hasShared: bool, begun: bool, pc: Pc)

  datatype State = State(shared: multiset<Item>, numLocal: int, procs: seq<Proc>)

  /** Taking items in the pop room and giving them in the push room go on in pieces; work
      turns the items a processor has into others. */
  datatype Action =
    | EnterPop(p: nat)
    | Take(p: nat, items: multiset<Item>)
    | LeavePop(p: nat)
    | Work(p: nat, items: multiset<Item>)
    | EnterPush(p: nat)
    | Give(p: nat, items: multiset<Item>)
    | Uncount(p: nat)
    | LeavePush(p: nat)

  predicate PopOpen(s: State) { exists p | 0 <= p < |s.procs| :: s.procs[p].pc.InPop? }

  predicate Pushes(q: Proc) { q.pc.InPush? || q.pc.Pushed? }

  /** Rooms: nobody enters to pop while someone is in the push room, nor the other way
      round. A processor without items has no work to do. */
  predicate Enabled(s: State, a: Action) {
    a.p < |s.procs| &&
    var q := s.procs[a.p];
    match a
    case EnterPop(p) => q.pc.Ready? && forall r | 0 <= r < |s.procs| :: !Pushes(s.procs[r])
    case Take(p, items) => q.pc.InPop? && items <= s.shared && items != multiset{}
    case LeavePop(p) => q.pc.InPop?
    case Work(p, items) => q.pc.Working? && q.local != multiset{}
    case EnterPush(p) => q.pc.Working? && !PopOpen(s)
    case Give(p, items) => q.pc.InPush? && items <= q.local
    case Uncount(p) => q.pc.InPush? && q.local == multiset{}
    case LeavePush(p) => q.pc.Pushed?
  }

  /** Whether anyone else is still in the push room. */
  predicate OthersPush(s: State, p: nat) { exists r | 0 <= r < |s.procs| && r != p :: Pushes(s.procs[r]) }

  /** What the last processor to leave the push room finds. */
  predicate FoundEmpty(s: State) { s.shared == multiset{} && s.numLocal == 0 }

  function With(s: State, p: nat, q: Proc): State
    requires p < |s.procs|
  {
    s.(procs := s.procs[p := q])
  }

  function Step(s: State, a: Action): State
    requires Enabled(s, a)
  {
    var q := s.procs[a.p];
    match a
    case EnterPop(p) => With(s, p, q.(pc := InPop(false)))
    case Take(p, items) => With(s.(shared := s.shared - items), p, q.(local := q.local + items, pc := InPop(true)))
    case LeavePop(p) =>
      if q.pc.fetched then With(s.(numLocal := s.numLocal + 1), p, q.(hasShared := true, pc := Working))
      else With(s, p, q.(pc := Working))
    case Work(p, items) => With(s, p, q.(local := items))
    case EnterPush(p) => With(s, p, q.(pc := InPush))
    case Give(p, items) => With(s.(shared := s.shared + items), p, q.(local := q.local - items))
    case Uncount(p) =>
      if q.hasShared then With(s.(numLocal := s.numLocal - 1), p, q.(hasShared := false, pc := Pushed))
      else With(s, p, q.(pc := Pushed))
    case LeavePush(p) =>
      var told := q.begun && !OthersPush(s, p) && FoundEmpty(s);
      With(s, p, q.(begun := true, pc := if told then Stopped else Ready))
  }

  // ---- the invariant --------------------------------------------------------------------

  /** Only processors counted as holding work, or just fetching it, have items. */
  predicate ProcOk(q: Proc) {
    && (!q.hasShared && !(q.pc.InPop? && q.pc.fetched) ==> q.local == multiset{})
    && (q.hasShared ==> q.pc.Working? || q.pc.InPush?)
  }

  function Sharing(s: State): set<nat> { set p | 0 <= p < |s.procs| && s.procs[p].hasShared }

  predicate SomeStopped(s: State) { exists p | 0 <= p < |s.procs| :: s.procs[p].pc.Stopped? }

  /** Nothing left to do anywhere, and nobody about to have something. */
  predicate AllEmpty(s: State) {
    && s.shared == multiset{}
    && forall p | 0 <= p < |s.procs| ::
         s.procs[p].local == multiset{} && !s.procs[p].hasShared && !(s.procs[p].pc.InPop? && s.procs[p].pc.fetched)
  }

  ghost predicate Inv(s: State) {
    && (forall p | 0 <= p < |s.procs| :: ProcOk(s.procs[p]))
    && s.numLocal == |Sharing(s)|
    && (PopOpen(s) ==> forall p | 0 <= p < |s.procs| :: !Pushes(s.procs[p]))
    && (SomeStopped(s) ==> AllEmpty(s))
  }

  /** The collection as the loop starts: every processor has been counted and has scanned
      its roots. */
  predicate Starts(s: State) {
    s.shared == multiset{} && s.numLocal == |s.procs| && forall p | 0 <= p < |s.procs| ::
      s.procs[p].hasShared && !s.procs[p].begun && s.procs[p].pc == Working
  }

  lemma StartInv(s: State)
    requires Starts(s)
    ensures Inv(s)
  {
    AllCount(s, |s.procs|);
  }

  lemma AllCount(s: State, n: nat)
    requires n <= |s.procs| && forall p | 0 <= p < |s.procs| :: s.procs[p].hasShared
    ensures |set p | 0 <= p < n && s.procs[p].hasShared| == n
  {
    if n > 0 {
      AllCount(s, n - 1);
      assert (set p | 0 <= p < n && s.procs[p].hasShared) == (set p | 0 <= p < n - 1 && s.procs[p].hasShared) + {n - 1};
    }
  }

  lemma SharingStep(s: State, a: Action)
    requires Inv(s) && Enabled(s, a)
    ensures Step(s, a).numLocal == |Sharing(Step(s, a))|
  {
    hide Sharing, PopOpen, Pushes, AllEmpty, SomeStopped, OthersPush;
    var t := Step(s, a);
    assert ProcOk(s.procs[a.p]);
    SharingOne(s, t, a.p, t.procs[a.p]);
  }

  lemma SharingOne(s: State, t: State, p: nat, q: Proc)
    requires p < |s.procs| && t.procs == s.procs[p := q]
    ensures |Sharing(t)| == |Sharing(s)| + (if q.hasShared then 1 else 0) - (if s.procs[p].hasShared then 1 else 0)
  {
    if q.hasShared == s.procs[p].hasShared {
      assert Sharing(t) == Sharing(s);
    } else if q.hasShared {
      assert Sharing(t) == Sharing(s) + {p};
    } else {
      assert Sharing(t) == Sharing(s) - {p};
    }
  }

  /** When the last processor leaves the push room and finds nothing, there is nothing
      anywhere. */
  lemma FoundAllEmpty(s: State, p: nat)
    requires Inv(s) && p < |s.procs| && s.procs[p].pc.Pushed? && FoundEmpty(s)
    ensures AllEmpty(s)
  {
    assert Sharing(s) == {};
    forall r | 0 <= r < |s.procs|
      ensures s.procs[r].local == multiset{} && !s.procs[r].hasShared && !s.procs[r].pc.InPop?
    {
      assert r !in Sharing(s) && ProcOk(s.procs[r]);
      assert Pushes(s.procs[p]);
    }
  }

  lemma EmptyStays(s: State, a: Action)
    requires AllEmpty(s) && Enabled(s, a)
    ensures AllEmpty(Step(s, a))
  {
    hide PopOpen, Pushes, OthersPush;
    var q := Step(s, a).procs[a.p];
    assert q.local == multiset{} && !q.hasShared && !(q.pc.InPop? && q.pc.fetched);
  }

  lemma WhoStops(s: State, a: Action)
    requires Enabled(s, a) && SomeStopped(Step(s, a))
    ensures SomeStopped(s) || (a.LeavePush? && !OthersPush(s, a.p) && FoundEmpty(s))
  {
    hide PopOpen, Pushes, OthersPush, FoundEmpty;
    var t := Step(s, a);
    var p :| 0 <= p < |t.procs| && t.procs[p].pc.Stopped?;
    if p != a.p {
      assert s.procs[p].pc.Stopped?;
    }
  }

  lemma InvStopped(s: State)
    requires Inv(s) && SomeStopped(s)
    ensures AllEmpty(s)
  {}

  lemma LeavesPushed(s: State, a: Action)
    requires Enabled(s, a) && a.LeavePush?
    ensures a.p < |s.procs| && s.procs[a.p].pc.Pushed?
  {}

  lemma StepStopped(s: State, a: Action)
    requires Inv(s) && Enabled(s, a)
    ensures SomeStopped(Step(s, a)) ==> AllEmpty(Step(s, a))
  {
    hide *;
    if SomeStopped(Step(s, a)) {
      WhoStops(s, a);
      if SomeStopped(s) {
        InvStopped(s);
      } else {
        LeavesPushed(s, a);
        FoundAllEmpty(s, a.p);
      }
      EmptyStays(s, a);
    }
  }

  lemma StepRooms(s: State, a: Action)
    requires Inv(s) && Enabled(s, a)
    ensures PopOpen(Step(s, a)) ==> forall p | 0 <= p < |s.procs| :: !Pushes(Step(s, a).procs[p])
  {
    hide Sharing, ProcOk, AllEmpty, OthersPush, FoundEmpty, SomeStopped, PopOpen;
    var t := Step(s, a);
    if !a.EnterPop? && PopOpen(t) {
      PopStays(s, a);
    }
  }

  lemma PopStays(s: State, a: Action)
    requires Enabled(s, a) && !a.EnterPop? && PopOpen(Step(s, a))
    ensures PopOpen(s)
  {
    hide OthersPush, FoundEmpty, Pushes;
    var t := Step(s, a);
    var p :| 0 <= p < |t.procs| && t.procs[p].pc.InPop?;
    assert s.procs[p].pc.InPop?;
  }

  /** Every step of every processor keeps the invariant. */
  lemma StepInv(s: State, a: Action)
    requires Inv(s) && Enabled(s, a)
    ensures Inv(Step(s, a))
  {
    SharingStep(s, a);
    StepStopped(s, a);
    StepRooms(s, a);
    hide Sharing, PopOpen, SomeStopped, AllEmpty;
    assert ProcOk(s.procs[a.p]);
  }

  /** When nothing is left anywhere, the last processor in the push room finds the stack
      empty and nobody counted. */
  lemma AllEmptyFound(s: State)
    requires Inv(s) && AllEmpty(s)
    ensures FoundEmpty(s)
  {
    assert Sharing(s) == {};
  }

  /** A processor in the loop that leaves the push room is told that all is empty exactly
      when there is no work anywhere and nobody else is in that room. */
  lemma ToldExactly(s: State, p: nat)
    requires Inv(s) && Enabled(s, LeavePush(p))
    ensures Step(s, LeavePush(p)).procs[p].pc.Stopped? <==>
            s.procs[p].begun && AllEmpty(s) && forall r | 0 <= r < |s.procs| && r != p :: !Pushes(s.procs[r])
  {
    hide Inv, AllEmpty, Pushes;
    if FoundEmpty(s) {
      FoundAllEmpty(s, p);
    }
    if AllEmpty(s) {
      AllEmptyFound(s);
    }
  }

  // ---- runs ------------------------------------------------------------------------------

  function Run(s: State, acts: seq<Action>): Option<State>
    decreases acts
  {
    if acts == [] then Some(s)
    else if Enabled(s, acts[0]) then Run(Step(s, acts[0]), acts[1..])
    else None
  }

  lemma {:induction false} RunInv(s: State, acts: seq<Action>)
    requires Inv(s) && Run(s, acts).Some?
    ensures Inv(Run(s, acts).value) && |Run(s, acts).value.procs| == |s.procs|
    decreases acts
  {
    hide Inv;
    if acts != [] {
      StepInv(s, acts[0]);
      RunInv(Step(s, acts[0]), acts[1..]);
    }
  }

  /** In every run: a processor is told that all is empty only when the shared stack and
      every processor's own work are empty, and from then on they stay so. */
  lemma {:induction false} StopsOnlyWhenDone(s: State, acts: seq<Action>, more: seq<Action>)
    requires Starts(s) && Run(s, acts).Some? && SomeStopped(Run(s, acts).value) && Run(Run(s, acts).value, more).Some?
    ensures AllEmpty(Run(s, acts).value) && AllEmpty(Run(Run(s, acts).value, more).value)
  {
    StartInv(s);
    RunInv(s, acts);
    var t := Run(s, acts).value;
    RunInv(t, more);
    StaysStopped(t, more);
  }

  lemma {:induction false} StaysStopped(s: State, acts: seq<Action>)
    requires Run(s, acts).Some? && SomeStopped(s)
    ensures SomeStopped(Run(s, acts).value)
    decreases acts
  {
    if acts != [] {
      var p :| 0 <= p < |s.procs| && s.procs[p].pc.Stopped?;
      assert Step(s, acts[0]).procs[p].pc.Stopped?;
      StaysStopped(Step(s, acts[0]), acts[1..]);
    }
  }

  // ---- every run can be brought to its end ---------------------------------------------

  ghost predicate AllStopped(s: State) { forall p | 0 <= p < |s.procs| :: s.procs[p].pc.Stopped? }

  /** Work yet to be done: items count twice while shared, and three times before. */
  ghost function Load(q: Proc): nat { |q.local| * if q.pc.InPush? then 3 else 1 }

  /** Whether a processor is, or is about to be, counted as holding work. */
  ghost function Counted(q: Proc): nat {
    (if q.hasShared then 1 else 0) + if q.pc.InPop? && q.pc.fetched then 1 else 0
  }

  ghost function Fresh(q: Proc): nat { if q.begun then 0 else 1 }

  ghost function Running(q: Proc): nat { if q.pc.Stopped? then 0 else 1 }

  /** How far from popping, how far from pushing, and how far from leaving for good. */
  ghost function ToPop(q: Proc): nat {
    match q.pc
    case Working => 4
    case InPush => 3
    case Pushed => 2
    case Ready => 1
    case _ => 0
  }

  ghost function ToPush(q: Proc): nat {
    match q.pc
    case InPop(_) => 2
    case Working => 1
    case _ => 0
  }

  ghost function ToLeave(q: Proc): nat {
    match q.pc
    case InPush => 2
    case Pushed => 1
    case _ => 0
  }

  ghost function ToEnter(q: Proc): nat {
    match q.pc
    case Ready => 2
    case InPop(_) => 1
    case _ => 0
  }

  ghost function ToDo(s: State): nat { 2 * |s.shared| + Sum(s.procs, Load) }

  /** What the steps of one stage bring down. */
  ghost function Rank(s: State): nat {
    if s.shared != multiset{} then Sum(s.procs, ToPop)
    else if ToDo(s) > 0 || Sum(s.procs, Counted) > 0 then Sum(s.procs, ToPush)
    else if Sum(s.procs, ToLeave) > 0 then Sum(s.procs, ToLeave)
    else 3 + Sum(s.procs, ToEnter)
  }

  /** The second state is nearer the end. */
  ghost predicate Nearer(s: State, t: State) {
    || ToDo(t) < ToDo(s)
    || (ToDo(t) == ToDo(s) &&
        (|| Sum(t.procs, Counted) < Sum(s.procs, Counted)
         || (Sum(t.procs, Counted) == Sum(s.procs, Counted) &&
             (|| Sum(t.procs, Fresh) < Sum(s.procs, Fresh)
              || (Sum(t.procs, Fresh) == Sum(s.procs, Fresh) &&
                  (|| Sum(t.procs, Running) < Sum(s.procs, Running)
                   || (Sum(t.procs, Running) == Sum(s.procs, Running) && Rank(t) < Rank(s))))))))
  }

  /** Popping all there is, giving all one has, or working it off leaves less to do. */
  lemma WorkNearer(s: State, a: Action)
    requires Enabled(s, a)
    requires match a
             case Take(_, items) => items == s.shared
             case Give(_, items) => items == s.procs[a.p].local != multiset{}
             case Work(_, items) => items == multiset{}
             case _ => false
    ensures Nearer(s, Step(s, a))
  {
    hide Sum, PopOpen, Pushes, Rank;
    SumUpdate(s.procs, a.p, Step(s, a).procs[a.p], Load);
  }

  /** Steps that move no items leave what is to do as it is. */
  lemma MoveSums(s: State, a: Action, f: Proc -> nat)
    requires Enabled(s, a) && !a.Take? && !a.Give? && !a.Work? && ProcOk(s.procs[a.p])
    requires a.EnterPush? ==> s.procs[a.p].local == multiset{}
    ensures var t, q := Step(s, a), Step(s, a).procs[a.p];
            && t.shared == s.shared && ToDo(t) == ToDo(s)
            && Sum(t.procs, f) + f(s.procs[a.p]) == Sum(s.procs, f) + f(q)
  {
    hide Sum, PopOpen, Pushes, OthersPush, FoundEmpty;
    var q := Step(s, a).procs[a.p];
    assert Step(s, a).procs == s.procs[a.p := q];
    SumUpdate(s.procs, a.p, q, Load);
    SumUpdate(s.procs, a.p, q, f);
  }

  /** Such a step brings the end nearer if it brings the rank down, or ends a count. */
  lemma MoveNearer(s: State, a: Action)
    requires Enabled(s, a) && !a.Take? && !a.Give? && !a.Work? && ProcOk(s.procs[a.p])
    requires a.EnterPush? ==> s.procs[a.p].local == multiset{}
    requires || (a.Uncount? && s.procs[a.p].hasShared)
             || (a.LeavePush? && (!s.procs[a.p].begun || Step(s, a).procs[a.p].pc.Stopped?))
             || Rank(Step(s, a)) < Rank(s)
    ensures Nearer(s, Step(s, a))
  {
    hide Sum, PopOpen, Pushes, OthersPush, FoundEmpty, Rank;
    MoveSums(s, a, Counted);
    MoveSums(s, a, Fresh);
    MoveSums(s, a, Running);
  }

  lemma NobodyStopped(s: State)
    requires Inv(s) && s.shared != multiset{}
    ensures forall p | 0 <= p < |s.procs| :: !s.procs[p].pc.Stopped? && ProcOk(s.procs[p])
    ensures !FoundEmpty(s)
  {
    assert !SomeStopped(s);
  }

  /** Items are on the stack: somebody pops them, or comes nearer to popping. */
  lemma TakeOn(s: State) returns (a: Action)
    requires Inv(s) && s.shared != multiset{} && s.procs != []
    ensures Enabled(s, a) && Nearer(s, Step(s, a))
  {
    NobodyStopped(s);
    hide Sum, Inv, Nearer, Counted, Load;
    if PopOpen(s) {
      var p :| 0 <= p < |s.procs| && s.procs[p].pc.InPop?;
      a := Take(p, s.shared);
      WorkNearer(s, a);
      return;
    }
    a := TakeNext(s);
    if a.Give? || a.Work? {
      WorkNearer(s, a);
    } else {
      hide ToDo;
      MoveSums(s, a, ToPop);
      MoveNearer(s, a);
    }
  }

  lemma TakeNext(s: State) returns (a: Action)
    requires s.procs != [] && !PopOpen(s) && forall p | 0 <= p < |s.procs| :: !s.procs[p].pc.Stopped?
    ensures Enabled(s, a) && !a.Take? && !a.LeavePop?
    ensures a.Give? ==> a.items == s.procs[a.p].local != multiset{}
    ensures a.Work? ==> a.items == multiset{}
    ensures a.EnterPush? ==> s.procs[a.p].local == multiset{}
  {
    if p: nat :| p < |s.procs| && Pushes(s.procs[p]) {
      a := if s.procs[p].pc.Pushed? then LeavePush(p)
           else if s.procs[p].local == multiset{} then Uncount(p)
           else Give(p, s.procs[p].local);
    } else if p: nat :| p < |s.procs| && s.procs[p].pc.Working? {
      a := if s.procs[p].local == multiset{} then EnterPush(p) else Work(p, multiset{});
    } else {
      a := EnterPop(0);
    }
  }

  /** Nothing is on the stack, but somebody has work or is counted. */
  lemma PushOn(s: State) returns (a: Action)
    requires Inv(s) && s.shared == multiset{} && (ToDo(s) > 0 || Sum(s.procs, Counted) > 0)
    ensures Enabled(s, a) && Nearer(s, Step(s, a))
  {
    var p := Holder(s);
    var q := s.procs[p];
    hide Sum, Inv, Nearer, Load, ToDo;
    if PopOpen(s) {
      var p :| 0 <= p < |s.procs| && s.procs[p].pc.InPop?;
      a := LeavePop(p);
    } else if q.local != multiset{} {
      a := if q.pc.InPush? then Give(p, q.local) else Work(p, multiset{});
      WorkNearer(s, a);
      return;
    } else {
      a := if q.pc.InPush? then Uncount(p) else EnterPush(p);
    }
    hide PopOpen, Pushes;
    MoveSums(s, a, Counted);
    MoveSums(s, a, ToPush);
    MoveNearer(s, a);
  }

  /** Whoever has work or is counted is popping, working or pushing. */
  lemma Holder(s: State) returns (p: nat)
    requires Inv(s) && s.shared == multiset{} && (ToDo(s) > 0 || Sum(s.procs, Counted) > 0)
    ensures p < |s.procs| && forall r | 0 <= r < |s.procs| :: ProcOk(s.procs[r])
    ensures PopOpen(s) || s.procs[p].hasShared
  {
    hide Sum;
    if ToDo(s) > 0 {
      p := SumSome(s.procs, Load);
    } else {
      p := SumSome(s.procs, Counted);
    }
    assert ProcOk(s.procs[p]);
  }

  /** Nothing is left: processors leave the push room until the last is told. */
  lemma LeaveOn(s: State) returns (a: Action)
    requires Inv(s) && s.shared == multiset{} && ToDo(s) == 0 && Sum(s.procs, Counted) == 0 && !AllStopped(s)
    ensures Enabled(s, a) && Nearer(s, Step(s, a))
  {
    NothingHeld(s);
    if p: nat :| p < |s.procs| && Pushes(s.procs[p]) {
      a := if s.procs[p].pc.Pushed? then LeavePush(p) else Uncount(p);
      PusherOn(s, p);
      return;
    }
    if Sum(s.procs, ToLeave) > 0 {
      var r := SumSome(s.procs, ToLeave);
    }
    a := EnterNext(s);
    hide Sum, Inv, Nearer, Load, ToDo, PopOpen, Pushes, AllEmpty;
    MoveSums(s, a, Counted);
    MoveSums(s, a, ToLeave);
    MoveSums(s, a, ToEnter);
    MoveNearer(s, a);
  }

  lemma EnterNext(s: State) returns (a: Action)
    requires !AllStopped(s) && (forall p | 0 <= p < |s.procs| :: !Pushes(s.procs[p]))
    ensures Enabled(s, a) && (a.LeavePop? || a.EnterPush? || a.EnterPop?)
  {
    if p: nat :| p < |s.procs| && s.procs[p].pc.InPop? {
      a := LeavePop(p);
    } else if p: nat :| p < |s.procs| && s.procs[p].pc.Working? {
      a := EnterPush(p);
    } else {
      var p: nat :| p < |s.procs| && !s.procs[p].pc.Stopped?;
      a := EnterPop(p);
    }
  }

  lemma NothingHeld(s: State)
    requires Inv(s) && s.shared == multiset{} && ToDo(s) == 0 && Sum(s.procs, Counted) == 0
    ensures AllEmpty(s) && forall p | 0 <= p < |s.procs| :: ProcOk(s.procs[p])
  {
    forall p | 0 <= p < |s.procs|
      ensures s.procs[p].local == multiset{} && Counted(s.procs[p]) == 0
    {
      SumAtLeast(s.procs, p, Load);
      SumAtLeast(s.procs, p, Counted);
    }
  }

  lemma PusherOn(s: State, p: nat)
    requires Inv(s) && AllEmpty(s) && ToDo(s) == 0 && Sum(s.procs, Counted) == 0
    requires p < |s.procs| && Pushes(s.procs[p])
    ensures var a := if s.procs[p].pc.Pushed? then LeavePush(p) else Uncount(p);
            Enabled(s, a) && Nearer(s, Step(s, a))
  {
    var a := if s.procs[p].pc.Pushed? then LeavePush(p) else Uncount(p);
    var t := Step(s, a);
    SumAtLeast(s.procs, p, ToLeave);
    AllEmptyFound(s);
    if OthersPush(s, p) {
      var r: nat :| r < |s.procs| && r != p && Pushes(s.procs[r]);
      assert t.procs[r] == s.procs[r];
      SumAtLeast(t.procs, r, ToLeave);
    } else if a.Uncount? {
      SumAtLeast(t.procs, p, ToLeave);
    }
    assert ProcOk(s.procs[p]);
    hide Inv, Sum, Nearer, Load, ToDo, Pushes, PopOpen;
    MoveSums(s, a, Counted);
    MoveSums(s, a, ToLeave);
    MoveNearer(s, a);
  }

  /** From every state the loop can reach, the processors can go on, work making no
      new items, so that each of them is told that all is empty. */
  lemma {:induction false} CanFinish(s: State) returns (acts: seq<Action>)
    requires Inv(s)
    ensures Run(s, acts).Some? && AllStopped(Run(s, acts).value)
    decreases ToDo(s), Sum(s.procs, Counted), Sum(s.procs, Fresh), Sum(s.procs, Running), Rank(s)
  {
    acts := [];
    if !AllStopped(s) {
      var a;
      if s.shared != multiset{} {
        a := TakeOn(s);
      } else if ToDo(s) > 0 || Sum(s.procs, Counted) > 0 {
        a := PushOn(s);
      } else {
        a := LeaveOn(s);
      }
      StepInv(s, a);
      hide Inv, AllStopped, ToDo, Rank;
      var rest := CanFinish(Step(s, a));
      acts := [a] + rest;
      assert acts[0] == a && acts[1..] == rest;
    }
  }

  /** However a collection has gone so far, it can be brought to its end. */
  lemma {:induction false} RunsCanFinish(s: State, acts: seq<Action>)
    requires Starts(s) && Run(s, acts).Some?
    ensures exists more :: Run(Run(s, acts).value, more).Some? && AllStopped(Run(Run(s, acts).value, more).value)
  {
    StartInv(s);
    RunInv(s, acts);
    var more := CanFinish(Run(s, acts).value);
  }

  /** In every run: a processor in the loop that leaves the push room is told that all is
      empty exactly when there is no work anywhere and nobody else is in that room. */
  lemma {:induction false} RunTellsExactly(s: State, acts: seq<Action>, p: nat)
    requires Starts(s) && Run(s, acts).Some? && Enabled(Run(s, acts).value, LeavePush(p))
    ensures var t := Run(s, acts).value;
            Step(t, LeavePush(p)).procs[p].pc.Stopped? <==>
            t.procs[p].begun && AllEmpty(t) && forall r | 0 <= r < |t.procs| && r != p :: !Pushes(t.procs[r])
  {
    StartInv(s);
    RunInv(s, acts);
    ToldExactly(Run(s, acts).value, p);
  }

  // ---- nothing is lost ---------------------------------------------------------------------

  ghost function Locals(procs: seq<Proc>): multiset<Item> {
    if procs == [] then multiset{} else Locals(procs[..|procs| - 1]) + procs[|procs| - 1].local
  }

  /** All the work there is. */
  ghost function Total(s: State): multiset<Item> { s.shared + Locals(s.procs) }

  lemma LocalsUpdate(procs: seq<Proc>, p: nat, q: Proc)
    requires p < |procs|
    ensures Locals(procs[p := q]) + procs[p].local == Locals(procs) + q.local
    decreases |procs|
  {
    var last := |procs| - 1;
    var front, now := procs[..last], procs[p := q];
    if p == last {
      assert now[..last] == front;
      Swap(Locals(front), q.local, procs[p].local);
    } else {
      LocalsUpdate(front, p, q);
      assert now[..last] == front[p := q] && now[last] == procs[last];
      Swap(Locals(front[p := q]), procs[last].local, procs[p].local);
      Swap(Locals(front), procs[last].local, q.local);
    }
  }

  lemma Swap(a: multiset<Item>, b: multiset<Item>, c: multiset<Item>)
    ensures a + b + c == a + c + b
  {}

  lemma Cancel(a: multiset<Item>, b: multiset<Item>, c: multiset<Item>)
    requires a + c == b + c
    ensures a == b
  {
    forall x: Item
      ensures a[x] == b[x]
    {
      assert (a + c)[x] == a[x] + c[x] && (b + c)[x] == b[x] + c[x];
    }
  }

  /** Everything but work itself leaves all items where some processor will find them. */
  lemma NothingLost(s: State, a: Action)
    requires Enabled(s, a) && !a.Work?
    ensures Total(Step(s, a)) == Total(s)
  {
    var was, q := s.procs[a.p], Step(s, a).procs[a.p];
    LocalsUpdate(s.procs, a.p, q);
    hide Locals;
    var before, now := Locals(s.procs), Locals(Step(s, a).procs);
    match a
    case Take(p, items) => Taken(s.shared, items, before, now, was.local);
    case Give(p, items) => Given(s.shared, items, before, now, was.local);
    case _ => Cancel(now, before, q.local);
  }

  lemma Taken(shared: multiset<Item>, items: multiset<Item>, before: multiset<Item>, now: multiset<Item>,
              local: multiset<Item>)
    requires items <= shared && now + local == before + (local + items)
    ensures (shared - items) + now == shared + before
  {
    forall x: Item
      ensures now[x] == before[x] + items[x]
    {
      assert (now + local)[x] == (before + (local + items))[x];
    }
  }

  lemma Given(shared: multiset<Item>, items: multiset<Item>, before: multiset<Item>, now: multiset<Item>,
              local: multiset<Item>)
    requires items <= local && now + local == before + (local - items)
    ensures (shared + items) + now == shared + before
  {
    forall x: Item
      ensures now[x] + items[x] == before[x]
    {
      assert (now + local)[x] == (before + (local - items))[x];
    }
  }
}

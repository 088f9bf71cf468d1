/** The stack of work that collectors share. Pops of one session run together, and so
    do pushes, but never a pop with a push (see Rooms); within a session every step is
    one access to the shared end of the stack. */
module SharedStack {
  import opened Counting

  // ---- popping -------------------------------------------------------------------------

  /** A processor that wants items, has moved the shared end down from `end`, or has
      taken the items from `lo` up to `hi`. */
  datatype Popper = Wants(count: nat) | Moved(end: int, count: nat) | Took(lo: nat, hi: nat)

  /** The items when the session began, the shared end, which overreaching pops leave
      below zero for a while, and for the record how many items are left. */
  datatype Popping = Popping(size: nat, end: int, left: nat, procs: seq<Popper>)

  function Max(a: int, b: int): int { if a >= b then a else b }

  /** Fetching and adding a negative count; then, where the bottom was overreached, a
      correction of the count and a write that puts the end back to the bottom. */
  function PopStep(s: Popping, p: nat): Popping
    requires p < |s.procs|
  {
    match s.procs[p]
    case Wants(n) =>
      s.(end := s.end - n,
         left := if s.end > 0 then Max(0, s.end - n) else s.left,
         procs := s.procs[p := Moved(s.end, n)])
    case Moved(end, n) =>
      if end <= 0 then s.(end := 0, procs := s.procs[p := Took(0, 0)])
      else if end - n < 0 then s.(end := 0, procs := s.procs[p := Took(0, end)])
      else s.(procs := s.procs[p := Took(end - n, end)])
    case Took(_, _) => s
  }

  /** The items a processor has, or will have once it has corrected its count. */
  function Lo(q: Popper): int {
    match q
    case Wants(_) => 0
    case Moved(end, n) => Max(0, end - n)
    case Took(lo, _) => lo
  }

  function Hi(q: Popper): int {
    match q
    case Wants(_) => 0
    case Moved(end, n) => Max(0, end)
    case Took(_, hi) => hi
  }

  predicate Gets(q: Popper, k: int) { Lo(q) <= k < Hi(q) }

  /** A pop that found too little or nothing, and has not put the end back yet. */
  predicate Overreaches(q: Popper) { q.Moved? && (q.end <= 0 || q.end - q.count < 0) }

  ghost predicate Given(s: Popping, k: int) { exists p :: 0 <= p < |s.procs| && Gets(s.procs[p], k) }

  /** What is left and what processors get are the items, each once. */
  ghost predicate Tiles(s: Popping) {
    && s.left <= s.size
    && (forall k | s.left <= k < s.size :: Given(s, k))
    && (forall p, k: int | 0 <= p < |s.procs| && Gets(s.procs[p], k) :: s.left <= k < s.size)
    && (forall p, q, k: int | 0 <= p < q < |s.procs| && Gets(s.procs[p], k) :: !Gets(s.procs[q], k))
  }

  ghost predicate PopInv(s: Popping) {
    && Tiles(s) && s.end <= s.size
    && (if s.end > 0 then s.left == s.end else s.left == 0)
    && (forall p | 0 <= p < |s.procs| && Overreaches(s.procs[p]) :: s.end <= 0)
    && (s.end < 0 ==> exists p :: 0 <= p < |s.procs| && Overreaches(s.procs[p]))
  }

  lemma PopStart(size: nat, wants: seq<nat>)
    ensures PopInv(Popping(size, size, size, seq(|wants|, p requires 0 <= p < |wants| => Wants(wants[p]))))
  {}

  /** Every step of a pop keeps the invariant. */
  lemma PopStepInv(s: Popping, p: nat)
    requires PopInv(s) && p < |s.procs|
    ensures PopInv(PopStep(s, p))
  {
    match s.procs[p]
    case Wants(n) => MoveInv(s, p, n);
    case Moved(end, n) => TakeInv(s, p, end, n);
    case Took(_, _) =>
  }

  lemma MoveInv(s: Popping, p: nat, n: nat)
    requires PopInv(s) && p < |s.procs| && s.procs[p] == Wants(n)
    ensures PopInv(PopStep(s, p))
  {
    var t := PopStep(s, p);
    forall k | t.left <= k < t.size
      ensures Given(t, k)
    {
      if k < s.left {
        assert Gets(t.procs[p], k);
      } else {
        assert Given(s, k);
        var q :| 0 <= q < |s.procs| && Gets(s.procs[q], k);
        assert t.procs[q] == s.procs[q];
      }
    }
    if t.end < 0 {
      assert Overreaches(t.procs[p]);
    }
  }

  lemma TakeInv(s: Popping, p: nat, end: int, n: nat)
    requires PopInv(s) && p < |s.procs| && s.procs[p] == Moved(end, n)
    ensures PopInv(PopStep(s, p))
  {
    var t := PopStep(s, p);
    assert forall k: int :: Gets(t.procs[p], k) == Gets(s.procs[p], k);
    forall k | t.left <= k < t.size
      ensures Given(t, k)
    {
      assert Given(s, k);
      var q :| 0 <= q < |s.procs| && Gets(s.procs[q], k);
      assert Gets(t.procs[q], k);
    }
    if t.end < 0 {
      var q :| 0 <= q < |s.procs| && Overreaches(s.procs[q]);
      assert q != p && t.procs[q] == s.procs[q];
    }
  }

  function PopRun(s: Popping, acts: seq<nat>): (t: Popping)
    requires forall k | 0 <= k < |acts| :: acts[k] < |s.procs|
    ensures |t.procs| == |s.procs|
    decreases acts
  {
    if acts == [] then s else PopRun(PopStep(s, acts[0]), acts[1..])
  }

  lemma {:induction false} PopRunInv(s: Popping, acts: seq<nat>)
    requires PopInv(s) && forall k | 0 <= k < |acts| :: acts[k] < |s.procs|
    ensures PopInv(PopRun(s, acts))
    decreases acts
  {
    hide PopInv, PopStep;
    if acts != [] {
      PopStepInv(s, acts[0]);
      SameProcs(s, acts[0]);
      PopRunInv(PopStep(s, acts[0]), acts[1..]);
    }
  }

  // ---- who gets how much ------------------------------------------------------------------

  /** How many items the processors that have moved the end asked for. */
  ghost function Asked(procs: seq<Popper>, wants: seq<nat>): nat
    requires |procs| == |wants|
  {
    if procs == [] then 0
    else
      var last := |procs| - 1;
      Asked(procs[..last], wants[..last]) + if procs[last].Wants? then 0 else wants[last]
  }

  lemma {:induction false} AskedUpdate(procs: seq<Popper>, wants: seq<nat>, p: nat, q: Popper)
    requires |procs| == |wants| && p < |procs| && !q.Wants?
    ensures Asked(procs[p := q], wants) == Asked(procs, wants) + if procs[p].Wants? then wants[p] else 0
    decreases |procs|
  {
    var last := |procs| - 1;
    var now := procs[p := q];
    if p < last {
      AskedUpdate(procs[..last], wants[..last], p, q);
      assert now[..last] == procs[..last][p := q];
    } else {
      assert now[..last] == procs[..last];
    }
  }

  ghost function Wanted(wants: seq<nat>): nat { Sum(wants, Itself) }

  function Itself(n: nat): nat { n }

  lemma {:induction false} AskedAll(procs: seq<Popper>, wants: seq<nat>, some: bool)
    requires |procs| == |wants| && forall p | 0 <= p < |procs| :: procs[p].Wants? != some
    ensures Asked(procs, wants) == if some then Wanted(wants) else 0
  {
    if procs != [] {
      AskedAll(procs[..|procs| - 1], wants[..|wants| - 1], some);
    }
  }

  /** A processor gets what it wants, unless the stack runs out: then what there was. */
  ghost predicate Served(q: Popper, want: nat, left: nat) {
    match q
    case Wants(n) => n == want
    case Moved(_, n) => n == want
    case Took(lo, hi) => lo <= hi && (hi - lo == want || (hi - lo < want && lo == 0 && left == 0))
  }

  /** What is left is what nobody has asked for. */
  ghost predicate Fair(s: Popping, wants: seq<nat>) {
    && |s.procs| == |wants| && s.left == Max(0, s.size - Asked(s.procs, wants))
    && forall p | 0 <= p < |wants| :: Served(s.procs[p], wants[p], s.left)
  }

  lemma FairStep(s: Popping, wants: seq<nat>, p: nat)
    requires PopInv(s) && Fair(s, wants) && p < |s.procs|
    ensures Fair(PopStep(s, p), wants)
  {
    hide Tiles;
    var t := PopStep(s, p);
    assert Served(s.procs[p], wants[p], s.left);
    if !s.procs[p].Took? {
      AskedUpdate(s.procs, wants, p, t.procs[p]);
      hide Asked;
      assert s.procs[p].Moved? && Overreaches(s.procs[p]) ==> s.left == 0;
      assert Served(t.procs[p], wants[p], t.left);
    }
  }

  lemma {:induction false} FairRun(s: Popping, wants: seq<nat>, acts: seq<nat>)
    requires PopInv(s) && Fair(s, wants) && forall k | 0 <= k < |acts| :: acts[k] < |s.procs|
    ensures Fair(PopRun(s, acts), wants)
    decreases acts
  {
    hide PopInv, PopStep, Fair;
    if acts != [] {
      PopStepInv(s, acts[0]);
      FairStep(s, wants, acts[0]);
      SameProcs(s, acts[0]);
      FairRun(PopStep(s, acts[0]), wants, acts[1..]);
    }
  }

  /** Whatever the schedule, once a session is over what was asked for is gone, as far as
      there was enough; and each processor has as many items as it asked for, but for one
      that reached the bottom of the stack or came to it empty. */
  lemma PopsAreServed(size: nat, wants: seq<nat>, acts: seq<nat>)
    requires forall k | 0 <= k < |acts| :: acts[k] < |wants|
    ensures var start := Popping(size, size, size, seq(|wants|, p requires 0 <= p < |wants| => Wants(wants[p])));
            var s := PopRun(start, acts);
            (forall p | 0 <= p < |s.procs| :: s.procs[p].Took?) ==>
              && s.end == Max(0, size - Wanted(wants))
              && forall p | 0 <= p < |s.procs| ::
                   && s.procs[p].lo <= s.procs[p].hi
                   && (|| s.procs[p].hi - s.procs[p].lo == wants[p]
                       || (s.procs[p].hi - s.procs[p].lo < wants[p] && s.procs[p].lo == 0 && s.end == 0))
  {
    var start := Popping(size, size, size, seq(|wants|, p requires 0 <= p < |wants| => Wants(wants[p])));
    PopStart(size, wants);
    AskedAll(start.procs, wants, false);
    PopRunInv(start, acts);
    FairRun(start, wants, acts);
    SameSize(start, acts);
    var s := PopRun(start, acts);
    hide PopRun, Asked;
    if forall p | 0 <= p < |s.procs| :: s.procs[p].Took? {
      AskedAll(s.procs, wants, true);
      assert s.end >= 0 && s.end == s.left;
      forall p | 0 <= p < |s.procs|
        ensures Served(s.procs[p], wants[p], s.left)
      {}
    }
  }

  lemma SameProcs(s: Popping, p: nat)
    requires p < |s.procs|
    ensures |PopStep(s, p).procs| == |s.procs|
  {}

  /** Whatever the schedule, once a session is over the stack ends where its items end,
      and each of the items it began with is either still there or was taken by exactly
      one processor. */
  lemma PopsAreDisjoint(size: nat, wants: seq<nat>, acts: seq<nat>)
    requires forall k | 0 <= k < |acts| :: acts[k] < |wants|
    ensures var start := Popping(size, size, size, seq(|wants|, p requires 0 <= p < |wants| => Wants(wants[p])));
            var s := PopRun(start, acts);
            (forall p | 0 <= p < |s.procs| :: s.procs[p].Took?) ==>
              && 0 <= s.end <= size
              && (forall k | 0 <= k < size :: Given(s, k) <==> k >= s.end)
              && (forall p, q, k: int | 0 <= p < q < |s.procs| && Gets(s.procs[p], k) :: !Gets(s.procs[q], k))
              && (forall p | 0 <= p < |s.procs| :: s.procs[p].hi <= size || s.procs[p].lo >= s.procs[p].hi)
  {
    var start := Popping(size, size, size, seq(|wants|, p requires 0 <= p < |wants| => Wants(wants[p])));
    PopStart(size, wants);
    PopRunInv(start, acts);
    SameSize(start, acts);
    var s := PopRun(start, acts);
    hide PopRun;
    assert s.size == size && PopInv(s);
    if forall p | 0 <= p < |s.procs| :: s.procs[p].Took? {
      assert s.end >= 0 && s.end == s.left;
    }
    forall p | 0 <= p < |s.procs| && Hi(s.procs[p]) > Lo(s.procs[p])
      ensures Hi(s.procs[p]) <= size
    {
      assert Gets(s.procs[p], Hi(s.procs[p]) - 1);
    }
  }

  lemma {:induction false} SameSize(s: Popping, acts: seq<nat>)
    requires forall k | 0 <= k < |acts| :: acts[k] < |s.procs|
    ensures PopRun(s, acts).size == s.size
    decreases acts
  {
    if acts != [] {
      SameSize(PopStep(s, acts[0]), acts[1..]);
    }
  }

  function PopTurn(q: Popper): nat { if q.Wants? then 0 else if q.Moved? then 1 else 2 }

  /** A processor is through with its pop exactly when it has had two turns. */
  lemma {:induction false} PopTurns(s: Popping, acts: seq<nat>, p: nat)
    requires p < |s.procs| && forall k | 0 <= k < |acts| :: acts[k] < |s.procs|
    ensures PopTurn(PopRun(s, acts).procs[p]) == Min(2, PopTurn(s.procs[p]) + multiset(acts)[p])
    decreases acts
  {
    if acts != [] {
      TurnOf(acts, p);
      PopTurns(PopStep(s, acts[0]), acts[1..], p);
    }
  }

  lemma TurnOf(acts: seq<nat>, p: nat)
    requires acts != []
    ensures multiset(acts)[p] == (if acts[0] == p then 1 else 0) + multiset(acts[1..])[p]
  {
    assert acts == [acts[0]] + acts[1..];
  }

  function Min(a: int, b: int): int { if a <= b then a else b }

  // ---- pushing ---------------------------------------------------------------------------

  /** A processor about to push, or with room reserved at `at` and the first `copied`
      items in place. */
  datatype Pusher = Holds(items: seq<int>) | Reserved(at: nat, items: seq<int>, copied: nat)

  datatype Pushing = Pushing(cells: seq<int>, end: nat, procs: seq<Pusher>)

  predicate Done(q: Pusher) { q.Reserved? && q.copied == |q.items| }

  /** Fetching and adding the number of items, then copying them one by one. A push
      past the limit ends the program, so a schedule does not contain one. */
  function PushStep(s: Pushing, p: nat): Pushing
    requires p < |s.procs|
  {
    match s.procs[p]
    case Holds(items) =>
      if s.end + |items| >= |s.cells| then s
      else s.(end := s.end + |items|, procs := s.procs[p := Reserved(s.end, items, 0)])
    case Reserved(at, items, c) =>
      if c < |items| && at + c < |s.cells| then
        s.(cells := s.cells[at + c := items[c]], procs := s.procs[p := Reserved(at, items, c + 1)])
      else s
  }

  predicate Covers(q: Pusher, k: int) { q.Reserved? && q.at <= k < q.at + |q.items| }

  ghost predicate Covered(s: Pushing, k: int) { exists p :: 0 <= p < |s.procs| && Covers(s.procs[p], k) }

  /** What was on the stack is untouched, and reserved stretches fill the rest up to the
      end without overlap, each with its items copied so far. */
  ghost predicate PushInv(s: Pushing, was: seq<int>) {
    && |was| <= s.end && s.end <= |s.cells| && s.cells[..|was|] == was
    && (forall k | |was| <= k < s.end :: Covered(s, k))
    && (forall p, k: int | 0 <= p < |s.procs| && Covers(s.procs[p], k) :: |was| <= k < s.end)
    && (forall p, q, k: int | 0 <= p < q < |s.procs| && Covers(s.procs[p], k) :: !Covers(s.procs[q], k))
    && (forall p | 0 <= p < |s.procs| :: Copied(s, s.procs[p]))
    && (forall p | 0 <= p < |s.procs| && s.procs[p].Reserved? :: s.end < |s.cells|)
  }

  ghost predicate Copied(s: Pushing, q: Pusher) {
    q.Reserved? ==>
      && q.copied <= |q.items| && q.at + |q.items| <= s.end <= |s.cells|
      && forall j | 0 <= j < q.copied :: s.cells[q.at + j] == q.items[j]
  }

  /** Every step of a push keeps the invariant. */
  lemma PushStepInv(s: Pushing, was: seq<int>, p: nat)
    requires PushInv(s, was) && p < |s.procs|
    ensures PushInv(PushStep(s, p), was)
  {
    if s.procs[p].Holds? {
      ReserveInv(s, was, p);
    } else if s.procs[p].copied < |s.procs[p].items| {
      CopyInv(s, was, p);
    }
  }

  lemma ReserveInv(s: Pushing, was: seq<int>, p: nat)
    requires PushInv(s, was) && p < |s.procs| && s.procs[p].Holds?
    ensures PushInv(PushStep(s, p), was)
  {
    var t := PushStep(s, p);
    forall k | |was| <= k < t.end
      ensures Covered(t, k)
    {
      if k >= s.end {
        assert Covers(t.procs[p], k);
      } else {
        assert Covered(s, k);
        var q :| 0 <= q < |s.procs| && Covers(s.procs[q], k);
        assert Covers(t.procs[q], k);
      }
    }
    forall q | 0 <= q < |t.procs|
      ensures Copied(t, t.procs[q])
    {
      assert Copied(s, s.procs[q]);
    }
  }

  lemma CopyInv(s: Pushing, was: seq<int>, p: nat)
    requires PushInv(s, was) && p < |s.procs| && s.procs[p].Reserved? && s.procs[p].copied < |s.procs[p].items|
    ensures PushInv(PushStep(s, p), was)
  {
    var t := PushStep(s, p);
    var x := s.procs[p].at + s.procs[p].copied;
    assert Copied(s, s.procs[p]) && Covers(s.procs[p], x);
    assert forall q, k: int | 0 <= q < |t.procs| :: Covers(t.procs[q], k) == Covers(s.procs[q], k);
    forall k | |was| <= k < t.end
      ensures Covered(t, k)
    {
      assert Covered(s, k);
      var q :| 0 <= q < |s.procs| && Covers(s.procs[q], k);
      assert Covers(t.procs[q], k);
    }
    hide Covered;
    forall q | 0 <= q < |t.procs|
      ensures Copied(t, t.procs[q])
    {
      CopiedStays(s, was, p, q);
    }
  }

  lemma CopiedStays(s: Pushing, was: seq<int>, p: nat, q: nat)
    requires PushInv(s, was) && p < |s.procs| && s.procs[p].Reserved? && s.procs[p].copied < |s.procs[p].items|
    requires q < |s.procs|
    ensures Copied(PushStep(s, p), PushStep(s, p).procs[q])
  {
    var t := PushStep(s, p);
    assert Copied(s, s.procs[p]) && Copied(s, s.procs[q]);
    var x := s.procs[p].at + s.procs[p].copied;
    assert Covers(s.procs[p], x);
    if q != p && s.procs[q].Reserved? {
      forall j | 0 <= j < s.procs[q].copied
        ensures t.cells[s.procs[q].at + j] == s.procs[q].items[j]
      {
        assert Covers(s.procs[q], s.procs[q].at + j);
      }
    }
  }

  function PushRun(s: Pushing, acts: seq<nat>): (t: Pushing)
    requires forall k | 0 <= k < |acts| :: acts[k] < |s.procs|
    decreases acts
  {
    if acts == [] then s else PushRun(PushStep(s, acts[0]), acts[1..])
  }

  lemma {:induction false} PushRunInv(s: Pushing, was: seq<int>, acts: seq<nat>)
    requires PushInv(s, was) && forall k | 0 <= k < |acts| :: acts[k] < |s.procs|
    ensures PushInv(PushRun(s, acts), was)
    decreases acts
  {
    hide PushInv;
    if acts != [] {
      PushStepInv(s, was, acts[0]);
      hide PushStep;
      PushRunInv(PushStep(s, acts[0]), was, acts[1..]);
    }
  }

  lemma {:induction false} PushRunItems(s: Pushing, acts: seq<nat>)
    requires forall k | 0 <= k < |acts| :: acts[k] < |s.procs|
    ensures var t := PushRun(s, acts);
            |t.procs| == |s.procs| && forall p | 0 <= p < |t.procs| :: t.procs[p].items == s.procs[p].items
    decreases acts
  {
    if acts != [] {
      PushRunItems(PushStep(s, acts[0]), acts[1..]);
    }
  }

  /** Whatever the schedule, once all pushes are done the stack holds what it held, and
      behind it every processor's items, each processor's together. */
  lemma PushesLoseNothing(cells: seq<int>, end: nat, items: seq<seq<int>>, acts: seq<nat>)
    requires end <= |cells| && forall k | 0 <= k < |acts| :: acts[k] < |items|
    ensures var start := Pushing(cells, end, seq(|items|, p requires 0 <= p < |items| => Holds(items[p])));
            var s := PushRun(start, acts);
            |s.procs| == |items| &&
            ((forall p | 0 <= p < |s.procs| :: Done(s.procs[p])) ==>
              && end <= s.end <= |s.cells| && s.cells[..end] == cells[..end] && (items != [] ==> s.end < |s.cells|)
              && (forall k | end <= k < s.end :: Covered(s, k))
              && (forall p, q, k: int | 0 <= p < q < |s.procs| && Covers(s.procs[p], k) :: !Covers(s.procs[q], k))
              && (forall p | 0 <= p < |s.procs| ::
                    var q := s.procs[p];
                    && q.items == items[p] && q.at + |q.items| <= s.end
                    && s.cells[q.at..q.at + |q.items|] == q.items))
  {
    var start := Pushing(cells, end, seq(|items|, p requires 0 <= p < |items| => Holds(items[p])));
    assert PushInv(start, cells[..end]);
    PushRunInv(start, cells[..end], acts);
    PushRunItems(start, acts);
    var s := PushRun(start, acts);
    hide PushRun;
    assert items != [] && Done(s.procs[0]) ==> s.procs[0].Reserved?;
    forall p | 0 <= p < |s.procs| && Done(s.procs[p])
      ensures var q := s.procs[p]; q.at + |q.items| <= s.end && s.cells[q.at..q.at + |q.items|] == q.items
    {
      assert Copied(s, s.procs[p]);
    }
  }

  function PushTurn(q: Pusher): nat { if q.Holds? then 0 else 1 + q.copied }

  /** The items of processors that have not reserved room yet. */
  ghost function Held(procs: seq<Pusher>): nat { Sum(procs, Holding) }

  function Holding(q: Pusher): nat { if q.Holds? then |q.items| else 0 }

  /** While there is room for all, a turn reserves room or copies one item. */
  lemma PushTurnStep(s: Pushing, was: seq<int>, p: nat)
    requires PushInv(s, was) && s.end + Held(s.procs) < |s.cells| && p < |s.procs|
    ensures var t := PushStep(s, p);
            && t.end + Held(t.procs) < |t.cells| == |s.cells| && |t.procs| == |s.procs|
            && (forall q | 0 <= q < |s.procs| && q != p :: t.procs[q] == s.procs[q])
            && t.procs[p].items == s.procs[p].items
            && PushTurn(t.procs[p]) == Min(1 + |s.procs[p].items|, PushTurn(s.procs[p]) + 1)
  {
    assert Copied(s, s.procs[p]);
    if s.procs[p].Holds? {
      SumAtLeast(s.procs, p, Holding);
    }
    if PushStep(s, p) != s {
      SumUpdate(s.procs, p, PushStep(s, p).procs[p], Holding);
    }
    hide Sum;
  }

  /** If there is room for all items, a processor is through with its push exactly when
      it has had one turn and one for each of its items. */
  lemma {:induction false} PushTurns(s: Pushing, was: seq<int>, acts: seq<nat>, p: nat)
    requires PushInv(s, was) && s.end + Held(s.procs) < |s.cells|
    requires p < |s.procs| && forall k | 0 <= k < |acts| :: acts[k] < |s.procs|
    ensures var t := PushRun(s, acts);
            |t.procs| == |s.procs| &&
            PushTurn(t.procs[p]) == Min(1 + |s.procs[p].items|, PushTurn(s.procs[p]) + multiset(acts)[p])
    decreases acts
  {
    assert Copied(s, s.procs[p]);
    if acts != [] {
      TurnOf(acts, p);
      PushTurnStep(s, was, acts[0]);
      PushStepInv(s, was, acts[0]);
      hide PushInv, PushStep, Copied;
      PushTurns(PushStep(s, acts[0]), was, acts[1..], p);
    }
  }
}

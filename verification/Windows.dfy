/** Sliding windows over on and off time: a ring buffer of ticks, and for every window
    size the number of on and off ticks among the last ones. */
module Windows {
  import opened Packing

  function CountOn(s: seq<bool>): nat {
    if s == [] then 0 else CountOn(s[..|s| - 1]) + if s[|s| - 1] then 1 else 0
  }

  function Repeat(on: bool, n: nat): (r: seq<bool>)
    ensures |r| == n && forall k | 0 <= k < n :: r[k] == on
  {
    seq(n, k => on)
  }

  function Min(a: nat, b: nat): nat { if a <= b then a else b }

  /** The last `w` ticks, or all if there are fewer. */
  function Last(s: seq<bool>, w: nat): seq<bool> { s[|s| - Min(|s|, w)..] }

  lemma {:induction false} CountConcat(a: seq<bool>, b: seq<bool>)
    ensures CountOn(a + b) == CountOn(a) + CountOn(b)
    decreases |b|
  {
    if b == [] {
      assert a + b == a;
    } else {
      assert (a + b)[..|a + b| - 1] == a + b[..|b| - 1];
      CountConcat(a, b[..|b| - 1]);
    }
  }

  lemma CountRepeat(on: bool, n: nat)
    ensures CountOn(Repeat(on, n)) == if on then n else 0
  {
    if n > 0 {
      assert Repeat(on, n)[..n - 1] == Repeat(on, n - 1);
      CountRepeat(on, n - 1);
    }
  }

  /** Moving a stretch one tick on. */
  lemma CountSlide(s: seq<bool>, lo: nat, hi: nat)
    requires lo < hi < |s|
    ensures CountOn(s[lo + 1..hi + 1]) == CountOn(s[lo..hi]) - (if s[lo] then 1 else 0) + (if s[hi] then 1 else 0)
  {
    assert s[lo..hi] == [s[lo]] + s[lo + 1..hi];
    CountConcat([s[lo]], s[lo + 1..hi]);
    assert s[lo + 1..hi + 1] == s[lo + 1..hi] + [s[hi]];
    CountConcat(s[lo + 1..hi], [s[hi]]);
    assert CountOn([s[lo]]) == CountOn([]) + if s[lo] then 1 else 0;
    assert CountOn([s[hi]]) == CountOn([]) + if s[hi] then 1 else 0;
  }

  /** Cutting one addition short at the size of the largest window leaves every window
      as it would be. */
  lemma CappingIsHarmless(kept: seq<bool>, all: seq<bool>, on: bool, n: nat, cap: nat, w: nat)
    requires w <= cap && Last(kept, w) == Last(all, w)
    ensures Last(kept + Repeat(on, Min(n, cap)), w) == Last(all + Repeat(on, n), w)
  {
    if n <= cap {
      LastConcat(kept, Repeat(on, n), w);
      LastConcat(all, Repeat(on, n), w);
    } else {
      LastRepeat(kept, on, cap, w);
      LastRepeat(all, on, n, w);
    }
  }

  /** The last ticks of a sequence with a shorter stretch behind it are the last of the
      last ones and that stretch. */
  lemma LastConcat(s: seq<bool>, t: seq<bool>, w: nat)
    ensures Last(s + t, w) == Last(Last(s, w) + t, w)
  {
    var d := |s| - Min(|s|, w);
    assert s + t == s[..d] + (Last(s, w) + t);
  }

  /** A stretch as long as the window fills it. */
  lemma LastRepeat(s: seq<bool>, on: bool, n: nat, w: nat)
    requires w <= n
    ensures Last(s + Repeat(on, n), w) == Repeat(on, w)
  {
    assert Last(s + Repeat(on, n), w) == Repeat(on, n)[n - w..];
  }

  /** Sums and start of a window of `width` ticks in a buffer of `size`. */
  ghost predicate IsWindow(on: int, off: int, start: nat, size: nat, width: nat, ticks: seq<bool>)
    requires size > 0
  {
    var len := Min(|ticks|, width);
    on == CountOn(ticks[|ticks| - len..]) && on + off == len && start == (|ticks| - len) % size
  }

  function Scaled(units: seq<nat>, g: nat): (r: seq<nat>)
    ensures |r| == |units| && forall k | 0 <= k < |r| :: r[k] == units[k] * g
  {
    seq(|units|, k requires 0 <= k < |units| => units[k] * g)
  }

  function Units(fine: bool): seq<nat> {
    if fine then [50, 60, 70, 80, 90, 100, 150, 200, 250, 500, 1000, 2000, 3000, 4000] else [5, 10, 20, 30, 40]
  }

  const FINE_SIZES: seq<nat> :=
    [250, 300, 350, 400, 450, 500, 750, 1000, 1250, 2500, 5000, 10000, 15000, 20000]

  const COARSE_SIZES: seq<nat> := [250, 500, 1000, 1500, 2000]

  lemma WindowSizes(fine: bool)
    ensures var r := Scaled(Units(fine), if fine then 5 else 50);
            && r == (if fine then FINE_SIZES else COARSE_SIZES)
            && forall k | 0 <= k < |r| :: 0 < r[k] <= if fine then 20000 else 2000
  {}

  class WindowQuotient {
    const numWindows: nat
    const size: nat
    const granularity: nat
    const windowSize: seq<nat>
    const data: array<bool>
    const start: array<nat>
    const onSum: array<int>
    const offSum: array<int>
    var last: nat
    var onRemain: real
    var offRemain: real

    /** For the record: the ticks kept, one addition never more than half the buffer,
        and all the ticks there have been. */
    ghost var kept: seq<bool>
    ghost var all: seq<bool>

    ghost predicate Shape() {
      && size > 0 && data.Length == size && |windowSize| == start.Length == onSum.Length == offSum.Length == numWindows
      && onSum != offSum
      && (forall w | 0 <= w < numWindows :: 0 < windowSize[w] <= size / 2)
    }

    ghost predicate RemainsOk()
      reads `onRemain, `offRemain
    {
      0.0 <= onRemain < 1.0 && 0.0 <= offRemain < 1.0
    }

    /** The newest ticks, up to the size of the buffer, are at their places. */
    ghost predicate RingOk(ticks: seq<bool>)
      requires Shape()
      reads `last, data
    {
      && last == |ticks| % size && last < size
      && forall k | 0 <= k < |ticks| && |ticks| - size <= k :: data[k % size] == ticks[k]
    }

    /** The sums of a window are those of the last ticks, and it starts at the first of
        them. */
    ghost predicate WindowOk(w: nat, ticks: seq<bool>)
      requires Shape() && w < numWindows
      reads start, onSum, offSum
    {
      IsWindow(onSum[w], offSum[w], start[w], size, windowSize[w], ticks)
    }

    ghost predicate Valid()
      reads this, data, start, onSum, offSum
    {
      && Shape() && RemainsOk() && RingOk(kept)
      && (forall w | 0 <= w < numWindows :: WindowOk(w, kept))
      && (forall w | 0 <= w <= size / 2 :: Last(kept, w) == Last(all, w))
    }

    /** Coarse windows of 5 to 40 units, or fine ones of 50 to 4000; the buffer is twice
        the largest. */
    constructor (fine: bool)
      ensures Valid() && kept == [] && all == []
      ensures fresh(data) && fresh(start) && fresh(onSum) && fresh(offSum)
      ensures granularity == (if fine then 5 else 50) && size == (if fine then 40000 else 4000)
      ensures windowSize == if fine then FINE_SIZES else COARSE_SIZES
      ensures onRemain == 0.0 && offRemain == 0.0
    {
      var units := Units(fine);
      var g := if fine then 5 else 50;
      var n := if fine then 2 * 4000 * 5 else 2 * 40 * 50;
      numWindows, granularity, size := |units|, g, n;
      windowSize := Scaled(units, g);
      WindowSizes(fine);
      hide Scaled, Units, Min, CountOn;
      data := new bool[n](_ => false);
      start := new nat[|units|](_ => 0);
      onSum := new int[|units|](_ => 0);
      offSum := new int[|units|](_ => 0);
      last, onRemain, offRemain := 0, 0.0, 0.0;
      kept, all := [], [];
    }

    /** Writes ticks behind the last one, round the buffer. */
    method WriteTicks(on: bool, ticks: nat)
      requires Shape() && RingOk(kept)
      modifies data, this`last, this`kept
      ensures Shape() && kept == old(kept) + Repeat(on, ticks) && RingOk(kept)
    {
      for i := 0 to ticks
        invariant Shape() && kept == old(kept) + Repeat(on, i) && RingOk(kept)
      {
        ghost var n := |kept|;
        forall k | 0 <= k < n && n + 1 - size <= k
          ensures k % size != n % size
        {
          ModNear(size, k, n);
        }
        ModNext(size, n);
        data[last] := on;
        last := if last + 1 == size then 0 else last + 1;
        kept := kept + [on];
        assert old(kept) + Repeat(on, i) + [on] == old(kept) + Repeat(on, i + 1);
      }
    }

    /** The sums and the start of a window are those of the ticks from `lo` up to `hi`. */
    ghost predicate Spans(w: nat, lo: nat, hi: nat)
      requires Shape() && w < numWindows
      reads `kept, start, onSum, offSum
    {
      lo <= hi <= |kept| && onSum[w] == CountOn(kept[lo..hi]) && onSum[w] + offSum[w] == hi - lo
        && start[w] == lo % size
    }

    /** Moves a window on by one tick: the first goes, and the next, whose kind is
        known, comes. */
    method SlideOne(w: nat, on: bool, ghost lo: nat, ghost hi: nat)
      requires Shape() && RingOk(kept) && w < numWindows && Spans(w, lo, hi) && lo < hi < |kept| <= lo + size
      requires kept[hi] == on
      modifies start, onSum, offSum
      ensures Spans(w, lo + 1, hi + 1)
      ensures forall v | 0 <= v < numWindows && v != w ::
                start[v] == old(start[v]) && onSum[v] == old(onSum[v]) && offSum[v] == old(offSum[v])
    {
      hide CountOn;
      CountSlide(kept, lo, hi);
      ModNext(size, lo);
      assert data[lo % size] == kept[lo];
      var firstOn := data[start[w]];
      start[w] := start[w] + 1;
      start[w] := if start[w] == size then 0 else start[w];
      if on {
        if !firstOn {
          onSum[w] := onSum[w] + 1;
          offSum[w] := offSum[w] - 1;
        }
      } else {
        if firstOn {
          offSum[w] := offSum[w] + 1;
          onSum[w] := onSum[w] - 1;
        }
      }
    }

    /** Brings the sums of one window up to date after ticks have been written: the
        window first fills up, and then moves on, tick by tick. */
    method SlideWindow(w: nat, on: bool, ticks: nat, ghost before: seq<bool>)
      requires Shape() && RingOk(kept) && w < numWindows && ticks <= size / 2
      requires kept == before + Repeat(on, ticks) && WindowOk(w, before)
      modifies start, onSum, offSum
      ensures WindowOk(w, kept)
      ensures forall v | 0 <= v < numWindows && v != w ::
                start[v] == old(start[v]) && onSum[v] == old(onSum[v]) && offSum[v] == old(offSum[v])
    {
      hide CountOn, RingOk;
      ghost var len := Min(|before|, windowSize[w]);
      var need := windowSize[w] - (onSum[w] + offSum[w]);
      var add: nat := if need < ticks then need else ticks;
      var transfer := ticks - add;
      ghost var lo, hi := |before| - len, |before| + add;
      FillUp(before, kept, on, ticks, lo, add);
      if on {
        onSum[w] := onSum[w] + add;
      } else {
        offSum[w] := offSum[w] + add;
      }
      assert transfer > 0 ==> hi - lo == windowSize[w];
      SlideMany(w, on, lo, hi, transfer, before, ticks);
      assert kept[lo + transfer..hi + transfer] == kept[|kept| - Min(|kept|, windowSize[w])..];
    }

    method SlideMany(w: nat, on: bool, ghost lo: nat, ghost hi: nat, transfer: nat, ghost before: seq<bool>,
                     ghost ticks: nat)
      requires Shape() && RingOk(kept) && w < numWindows && Spans(w, lo, hi) && kept == before + Repeat(on, ticks)
      requires |before| <= hi && hi + transfer == |kept| && (transfer > 0 ==> lo < hi) && |kept| <= lo + size
      modifies start, onSum, offSum
      ensures Spans(w, lo + transfer, hi + transfer)
      ensures forall v | 0 <= v < numWindows && v != w ::
                start[v] == old(start[v]) && onSum[v] == old(onSum[v]) && offSum[v] == old(offSum[v])
    {
      hide CountOn, RingOk, Spans;
      for i := 0 to transfer
        invariant Spans(w, lo + i, hi + i)
        invariant forall v | 0 <= v < numWindows && v != w ::
                    start[v] == old(start[v]) && onSum[v] == old(onSum[v]) && offSum[v] == old(offSum[v])
      {
        assert kept[hi + i] == Repeat(on, ticks)[hi + i - |before|];
        SlideOne(w, on, lo + i, hi + i);
      }
    }

    /** The whole ticks of a stretch of time, with the remainder carried from the last
        stretch of its kind. */
    method WholeTicks(time: real, on: bool) returns (whole: nat)
      requires RemainsOk() && time >= 0.0
      modifies this`onRemain, this`offRemain
      ensures RemainsOk()
      ensures granularity as real * time + old(if on then onRemain else offRemain)
           == whole as real + (if on then onRemain else offRemain)
      ensures if on then offRemain == old(offRemain) else onRemain == old(onRemain)
    {
      var units := granularity as real * time;
      whole := units.Floor;
      if on {
        onRemain := onRemain + (units - whole as real);
      } else {
        offRemain := offRemain + (units - whole as real);
      }
      if on && onRemain >= 1.0 {
        onRemain := onRemain - 1.0;
        whole := whole + 1;
      } else if !on && offRemain >= 1.0 {
        offRemain := offRemain - 1.0;
        whole := whole + 1;
      }
    }

    method SlideAll(on: bool, ticks: nat, ghost before: seq<bool>)
      requires Shape() && RingOk(kept) && ticks <= size / 2 && kept == before + Repeat(on, ticks)
      requires forall w | 0 <= w < numWindows :: WindowOk(w, before)
      modifies start, onSum, offSum
      ensures forall w | 0 <= w < numWindows :: WindowOk(w, kept)
    {
      hide CountOn, IsWindow, RingOk, Repeat;
      for w := 0 to numWindows
        invariant forall v | 0 <= v < w :: WindowOk(v, kept)
        invariant forall v | w <= v < numWindows :: WindowOk(v, before)
      {
        label before_w:
        SlideWindow(w, on, ticks, before);
        forall v | 0 <= v < numWindows && v != w
          ensures old@before_w(WindowOk(v, kept)) ==> WindowOk(v, kept)
          ensures old@before_w(WindowOk(v, before)) ==> WindowOk(v, before)
        {}
      }
    }

    /** Adds a stretch of on or off time: all its ticks to the record, and to the buffer
        at most half of what it holds. */
    method Add(time: real, on: bool) returns (ghost n: nat)
      requires Valid() && time >= 0.0
      modifies this, data, start, onSum, offSum
      ensures Valid() && all == old(all) + Repeat(on, n)
      ensures granularity as real * time + old(if on then onRemain else offRemain)
           == n as real + (if on then onRemain else offRemain)
      ensures if on then offRemain == old(offRemain) else onRemain == old(onRemain)
    {
      hide CountOn, Repeat, Last, RingOk, WindowOk;
      ghost var before, allBefore := kept, all;
      var whole := WholeTicks(time, on);
      n := whole;
      var ticks := Min(whole, size / 2);
      ghost var after := before + Repeat(on, ticks);
      all := all + Repeat(on, whole);
      forall w | 0 <= w <= size / 2
        ensures Last(after, w) == Last(all, w)
      {
        CappingIsHarmless(before, allBefore, on, whole, size / 2, w);
      }
      if ticks == 0 {
        assert after == before;
        return;
      }
      WriteTicks(on, ticks);
      SlideAll(on, ticks, before);
    }
  }

  /** While a window fills up, it grows by the new ticks alone. */
  lemma FillUp(before: seq<bool>, kept: seq<bool>, on: bool, ticks: nat, lo: nat, add: nat)
    requires kept == before + Repeat(on, ticks) && lo <= |before| && add <= ticks
    ensures CountOn(kept[lo..|before| + add]) == CountOn(before[lo..]) + (if on then add else 0)
  {
    assert kept[lo..|before| + add] == before[lo..] + Repeat(on, add);
    CountConcat(before[lo..], Repeat(on, add));
    CountRepeat(on, add);
  }

  /** At any time the sums of every window are those of all the ticks there have been:
      the on ticks among the last ones, and the rest off. */
  lemma WindowsAreSums(wq: WindowQuotient, w: nat)
    requires wq.Valid() && w < wq.numWindows
    ensures var recent := Last(wq.all, wq.windowSize[w]);
            wq.onSum[w] == CountOn(recent) && wq.offSum[w] == |recent| - CountOn(recent)
  {
    assert Last(wq.kept, wq.windowSize[w]) == Last(wq.all, wq.windowSize[w]);
    assert wq.WindowOk(w, wq.kept);
  }
}

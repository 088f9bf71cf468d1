/** Next-fit allocation of runs of bits, packed into 32-bit words. */
module Bitmap {
  import opened Counting

  function Bit(w: bv32, b: nat): bool
    requires b < 32
  {
    (w >> (b as bv6)) & 1 == 1
  }

  function WithBit(w: bv32, b: nat): bv32
    requires b < 32
  {
    w | (1 << (b as bv6))
  }

  lemma BitOfWith(w: bv32, b: nat, j: nat)
    requires b < 32 && j < 32
    ensures Bit(WithBit(w, b), j) == (j == b || Bit(w, j))
  {
    ShiftOfOr(w, b as bv6, j as bv6);
    SameShift(b, j);
  }

  lemma ShiftOfOr(w: bv32, b: bv6, j: bv6)
    requires b < 32 && j < 32
    ensures ((w | (1 << b)) >> j) & 1 == if b == j then 1 else (w >> j) & 1
  {}

  lemma SameShift(b: nat, j: nat)
    requires b < 32 && j < 32
    ensures (b as bv6) < 32 && (j as bv6) < 32 && (b as bv6 == j as bv6 <==> b == j)
  {}

  lemma NoBits(j: nat)
    requires j < 32
    ensures !Bit(0, j)
  {}

  function Range(c: nat, n: nat): set<nat> { if n == 0 then {} else Range(c, n - 1) + {c + n - 1} }

  /** A run of free bits inside the map. */
  predicate IsFree(bits: set<nat>, size: nat, c: nat, n: nat) {
    c + n <= size && forall i | c <= i < c + n :: i !in bits
  }

  lemma {:induction false} RangeCount(c: nat, n: nat)
    ensures |Range(c, n)| == n && forall i: nat :: i in Range(c, n) <==> c <= i < c + n
  {
    if n > 0 {
      RangeCount(c, n - 1);
    }
  }

  lemma AddOne(bits: set<nat>, i: nat)
    requires i !in bits
    ensures |bits + {i}| == |bits| + 1
  {}

  lemma {:induction false} AddRun(bits: set<nat>, size: nat, c: nat, n: nat)
    requires IsFree(bits, size, c, n)
    ensures |bits + Range(c, n)| == |bits| + n
  {
    RangeCount(c, n);
    assert bits !! Range(c, n);
  }

  /** A free run needs as many bits as it is long. */
  lemma FreeNeedsRoom(bits: set<nat>, size: nat, c: nat, n: nat)
    requires IsFree(bits, size, c, n) && forall i | i in bits :: i < size
    ensures |bits| + n <= size
  {
    RangeCount(c, n);
    assert Range(c, n) !! bits;
    assert |Range(c, n) + bits| == |Range(c, n)| + |bits|;
    BelowCount(size);
    SubsetCount(Range(c, n) + bits, Below(size));
  }

  /** No free run starts between two positions. */
  ghost predicate NoneFrom(bits: set<nat>, size: nat, n: nat, lo: int, hi: int) {
    forall c: nat | lo <= c < hi :: !IsFree(bits, size, c, n)
  }

  /** A bit that is set rules out every run over it. */
  lemma SetRulesOut(bits: set<nat>, size: nat, n: nat, cur: nat, i: nat)
    requires i in bits && cur <= i < cur + n
    ensures NoneFrom(bits, size, n, cur, i + 1)
  {
    forall c: nat | cur <= c < i + 1
      ensures !IsFree(bits, size, c, n)
    {
      assert c <= i < c + n;
    }
  }

  /** Runs that would end past the map. */
  lemma PastEnd(bits: set<nat>, size: nat, n: nat, cur: nat)
    requires cur + n > size
    ensures NoneFrom(bits, size, n, cur, size + 1)
  {}

  /** How far the search has come: from where it began up to `cur`; or round the end, and
      from the beginning up to `cur`; or over all. */
  ghost predicate Searched(bits: set<nat>, size: nat, n: nat, from: nat, cur: nat, dist: nat) {
    || (from <= cur && dist == cur - from && NoneFrom(bits, size, n, from, cur))
    || (NoneFrom(bits, size, n, from, size + 1) && NoneFrom(bits, size, n, 0, cur) && dist <= size - from + cur)
    || NoneFrom(bits, size, n, 0, size + 1)
  }

  /** Going back to the beginning. */
  lemma SearchedWrap(bits: set<nat>, size: nat, n: nat, from: nat, cur: nat, dist: nat)
    requires Searched(bits, size, n, from, cur, dist) && cur <= size && from <= size
    requires cur + n > size
    ensures Searched(bits, size, n, from, 0, dist)
  {
    hide IsFree;
    PastEnd(bits, size, n, cur);
    if from <= cur && dist == cur - from && NoneFrom(bits, size, n, from, cur) {
      assert NoneFrom(bits, size, n, from, size + 1);
    } else if NoneFrom(bits, size, n, from, size + 1) && NoneFrom(bits, size, n, 0, cur) {
      assert NoneFrom(bits, size, n, 0, size + 1);
    }
  }

  /** Going on behind a bit that is set. */
  lemma SearchedOn(bits: set<nat>, size: nat, n: nat, from: nat, cur: nat, dist: nat, i: nat)
    requires Searched(bits, size, n, from, cur, dist) && i in bits && cur <= i < cur + n
    ensures Searched(bits, size, n, from, i + 1, dist + (i + 1 - cur))
  {
    SetRulesOut(bits, size, n, cur, i);
    hide IsFree;
    if from <= cur && dist == cur - from && NoneFrom(bits, size, n, from, cur) {
      assert NoneFrom(bits, size, n, from, i + 1);
    } else if NoneFrom(bits, size, n, from, size + 1) && NoneFrom(bits, size, n, 0, cur) && dist <= size - from + cur {
      assert NoneFrom(bits, size, n, 0, i + 1);
    }
  }

  /** A search that has gone as far as the map is long has missed nothing. */
  lemma SearchedAll(bits: set<nat>, size: nat, n: nat, from: nat, cur: nat, dist: nat)
    requires Searched(bits, size, n, from, cur, dist) && dist >= size && cur <= size && from <= size && n > 0
    ensures forall c: nat :: !IsFree(bits, size, c, n)
  {
    forall c: nat
      ensures !IsFree(bits, size, c, n)
    {}
  }

  /** No free run begins, going round the map, between a position and another. */
  ghost predicate IsNext(bits: set<nat>, size: nat, n: nat, from: nat, cur: nat) {
    if from <= cur then NoneFrom(bits, size, n, from, cur)
    else NoneFrom(bits, size, n, from, size + 1) && NoneFrom(bits, size, n, 0, cur)
  }

  lemma FoundNext(bits: set<nat>, size: nat, n: nat, from: nat, cur: nat, dist: nat)
    requires Searched(bits, size, n, from, cur, dist) && IsFree(bits, size, cur, n)
    ensures IsNext(bits, size, n, from, cur)
  {}

  class Bitmap {
    const size: nat
    const data: array<bv32>
    var pos: nat
    var used: int

    function IsSetAt(i: nat): bool
      requires i < size && data.Length == 1 + size / 32
      reads data
    {
      Bit(data[i / 32], i % 32)
    }

    ghost function Bits(): (r: set<nat>)
      requires data.Length == 1 + size / 32
      reads data
      ensures forall i | i in r :: i < size
    {
      set i | 0 <= i < size && IsSetAt(i)
    }

    ghost predicate Valid()
      reads this, data
    {
      size > 0 && data.Length == 1 + size / 32 && pos <= size && used == |Bits()|
    }

    constructor (size: nat)
      requires size > 0
      ensures Valid() && this.size == size && Bits() == {} && pos == 0 && fresh(data)
    {
      this.size := size;
      data := new bv32[1 + size / 32](_ => 0);
      pos, used := 0, 0;
      new;
      Cleared();
    }

    lemma Cleared()
      requires data.Length == 1 + size / 32 && forall k | 0 <= k < size / 32 + 1 && 32 * k < size :: data[k] == 0
      ensures Bits() == {}
    {
      forall i | 0 <= i < size
        ensures !IsSetAt(i)
      {
        NoBits(i % 32);
      }
    }

    /** Clears the words that hold the map's bits. */
    method ClearBitmap()
      requires Valid()
      modifies this, data
      ensures Valid() && Bits() == {} && pos == 0
    {
      var longSize := (size + 31) / 32;
      for i := 0 to longSize
        invariant forall k | 0 <= k < i :: data[k] == 0
      {
        data[i] := 0;
      }
      used, pos := 0, 0;
      Cleared();
    }

    /** Reads a bit from its word. */
    method GetBit(i: nat) returns (b: bool)
      requires data.Length == 1 + size / 32 && i < size
      ensures b == (i in Bits())
    {
      b := Bit(data[i / 32], i % 32);
    }

    /** Sets a bit in its word. */
    method SetBit(i: nat)
      requires data.Length == 1 + size / 32 && i < size
      modifies data
      ensures Bits() == old(Bits()) + {i}
    {
      var w := i / 32;
      ghost var was := data[w];
      data[w] := WithBit(data[w], i % 32);
      forall j | 0 <= j < size
        ensures IsSetAt(j) == (j == i || old(IsSetAt(j)))
      {
        if j / 32 == w {
          BitOfWith(was, i % 32, j % 32);
          SamePlace(i, j);
        }
      }
    }

    method IsSet(i: nat) returns (b: bool)
      requires Valid()
      ensures b == (i in Bits())
    {
      b := false;
      if i < size {
        b := GetBit(i);
      }
    }

    /** Sets a bit, and counts it unless it was set. */
    method SetAndCount(i: nat)
      requires Valid() && i < size
      modifies this`used, data
      ensures Valid() && Bits() == old(Bits()) + {i}
    {
      hide Bits;
      var b := GetBit(i);
      if b {
        assert Bits() + {i} == Bits();
      } else {
        AddOne(Bits(), i);
        SetBit(i);
        used := used + 1;
      }
    }

    /** Sets the bits of a run, whatever they were. */
    method SetBitmapRange(start: nat, n: nat)
      requires Valid() && start + n <= size
      modifies this`used, data
      ensures Valid() && Bits() == old(Bits()) + Range(start, n)
    {
      hide Bits;
      for i := 0 to n
        invariant Valid() && Bits() == old(Bits()) + Range(start, i)
      {
        SetAndCount(start + i);
      }
    }

    /** Whether a run of bits is free; if not, a position behind one that is set. */
    method TestRange(cur: nat, n: nat) returns (found: bool, nextpos: nat)
      requires Valid() && cur + n <= size
      ensures found ==> IsFree(Bits(), size, cur, n)
      ensures !found ==> cur < nextpos <= cur + n && nextpos - 1 in Bits()
    {
      for i := 0 to n
        invariant forall j | cur <= j < cur + i :: j !in Bits()
      {
        var b := GetBit(cur + i);
        if b {
          return false, cur + i + 1;
        }
      }
      return true, 0;
    }

    method SetRun(cur: nat, n: nat)
      requires data.Length == 1 + size / 32 && cur + n <= size
      modifies data
      ensures Bits() == old(Bits()) + Range(cur, n)
    {
      hide IsSetAt;
      for i := 0 to n
        invariant Bits() == old(Bits()) + Range(cur, i)
      {
        SetBit(cur + i);
      }
    }

    /** Takes a run that is free. */
    method TakeRange(cur: nat, n: nat)
      requires Valid() && IsFree(Bits(), size, cur, n)
      modifies this, data
      ensures Valid() && Bits() == old(Bits()) + Range(cur, n) && pos == cur + n
    {
      hide IsSetAt;
      AddRun(Bits(), size, cur, n);
      SetRun(cur, n);
      pos := cur + n;
      used := used + n;
    }

    /** Finds the first free run from where the last one ended, round the end of the map
        if need be, and takes it. Fails exactly when there is none. */
    method AllocBitmapRange(n: nat) returns (result: int)
      requires Valid()
      modifies this, data
      ensures Valid()
      ensures result == -1 <==> !exists c: nat :: IsFree(old(Bits()), size, c, n)
      ensures result == -1 ==> Bits() == old(Bits()) && pos == old(pos)
      ensures result != -1 ==> 0 <= result && IsFree(old(Bits()), size, result, n)
      ensures result != -1 ==> IsNext(old(Bits()), size, n, old(pos), result)
      ensures result != -1 ==> Bits() == old(Bits()) + Range(result, n) && pos == result + n
    {
      var cur: nat, dist: nat := pos, 0;
      if n + used > size {
        NoRoom(Bits(), size, n);
        return -1;
      }
      hide NoneFrom, Searched, IsNext, IsFree, Bits;
      assert Searched(Bits(), size, n, pos, cur, dist) by { NothingYet(Bits(), size, n, pos); }
      while dist < size
        invariant Valid() && Bits() == old(Bits()) && pos == old(pos)
        invariant cur <= size && (n == 0 ==> dist == 0) && Searched(Bits(), size, n, pos, cur, dist)
        decreases size - dist
      {
        if cur + n > size {
          SearchedWrap(Bits(), size, n, pos, cur, dist);
          cur := 0;
        }
        var found, nextpos := TestRange(cur, n);
        if found {
          FoundNext(Bits(), size, n, pos, cur, dist);
          TakeRange(cur, n);
          return cur;
        }
        SearchedOn(Bits(), size, n, pos, cur, dist, nextpos - 1);
        dist := dist + (nextpos - cur);
        cur := nextpos;
        if cur >= size {
          SearchedWrap(Bits(), size, n, pos, cur, dist);
          cur := cur - size;
        }
      }
      SearchedAll(Bits(), size, n, pos, cur, dist);
      return -1;
    }
  }

  lemma SamePlace(i: nat, j: nat)
    ensures i / 32 == j / 32 && i % 32 == j % 32 ==> i == j
  {}

  lemma NothingYet(bits: set<nat>, size: nat, n: nat, from: nat)
    ensures Searched(bits, size, n, from, from, 0)
  {}

  lemma NoRoom(bits: set<nat>, size: nat, n: nat)
    requires n + |bits| > size && forall i | i in bits :: i < size
    ensures forall c: nat :: !IsFree(bits, size, c, n)
  {
    forall c: nat
      ensures !IsFree(bits, size, c, n)
    {
      if IsFree(bits, size, c, n) {
        FreeNeedsRoom(bits, size, c, n);
      }
    }
  }
}

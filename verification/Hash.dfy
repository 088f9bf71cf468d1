/** The hash table of call sites: open addressing with a second hash for the step. */
module Hash {
  import opened Counting
  import opened Packing

  const WORD := 0x1_0000_0000
  const EMPTY := 0xffff_ffff
  const MIX := 0x58d2_d93f

  /** A slot's key and data; the key that is all ones marks an unused slot. */
  datatype Entry = Entry(key: nat, data: int)

  /** A slot, nothing, or the program's end because the table is full. */
  datatype Found = Slot(index: nat) | Missing | Full

  function Mixed(key: nat): nat { key * MIX % WORD }

  function Start(key: nat, size: nat): (r: nat)
    requires size > 0
    ensures r < size
  {
    Mixed(key) % size
  }

  /** The step: some middle bits of the mixed key, made odd. */
  function Delta(key: nat, size: nat): (r: nat)
    requires size > 0
    ensures r < size
  {
    Odd(Mixed(key) / 256) % size
  }

  /** Setting the lowest bit. */
  function Odd(n: nat): nat { if n % 2 == 1 then n else n + 1 }

  /** The slot looked at after `j` steps. */
  function Probe(key: nat, size: nat, j: nat): (r: nat)
    requires size > 0
    ensures r < size
  {
    if j == 0 then Start(key, size) else (Probe(key, size, j - 1) + Delta(key, size)) % size
  }

  // ---- the probe sequence goes through the whole table ------------------------------------

  lemma {:induction false} PowerTwo(k: nat)
    ensures Power(2, k) > 0 && (k > 0 ==> Power(2, k) % 2 == 0)
  {
    if k > 0 {
      PowerTwo(k - 1);
      Even(Power(2, k - 1));
    }
  }

  lemma Even(p: int)
    ensures 2 * p % 2 == 0
  {}

  /** The step is odd. */
  lemma {:induction false} DeltaOdd(key: nat, k: nat)
    requires k > 0
    ensures Power(2, k) > 0 && Delta(key, Power(2, k)) % 2 == 1
  {
    PowerTwo(k);
    OddMod(Odd(Mixed(key) / 256), Power(2, k - 1));
  }

  lemma OddMod(n: nat, half: nat)
    requires n % 2 == 1 && half > 0
    ensures n % (2 * half) % 2 == 1
  {
    var q, r := n / (2 * half), n % (2 * half);
    assert n == (2 * half) * q + r;
    Twice(half, q);
  }

  lemma Twice(half: int, q: int)
    ensures (2 * half) * q == 2 * (half * q)
  {}

  /** The probe after `j` steps, as a multiple of the step. */
  lemma ProbeIs(key: nat, size: nat, j: nat) returns (q: int)
    requires size > 0
    ensures Probe(key, size, j) == Start(key, size) + Delta(key, size) * j - size * q
    decreases j
  {
    hide Start, Delta;
    if j == 0 {
      q := 0;
    } else {
      var before := ProbeIs(key, size, j - 1);
      var sum := Probe(key, size, j - 1) + Delta(key, size);
      q := before + sum / size;
      assert sum == size * (sum / size) + sum % size;
      Expand(size, before, sum / size);
      Expand(Delta(key, size), j - 1, 1);
    }
  }

  lemma Expand(a: int, b: int, c: int)
    ensures a * (b + c) == a * b + a * c
  {}

  /** An odd number's multiple is a multiple of a power of two only with the factor. */
  lemma OddDivides(k: nat, d: int, m: int, q: int) returns (f: int)
    requires d % 2 == 1 && d * m == Power(2, k) * q
    ensures m == Power(2, k) * f
    decreases k
  {
    if k == 0 {
      f := m;
    } else {
      var half := Power(2, k - 1);
      Twice(half, q);
      EvenFactor(d, m, half * q);
      Halve(d, m / 2);
      f := OddDivides(k - 1, d, m / 2, q);
      Twice(half, f);
    }
  }

  lemma Halve(d: int, h: int)
    ensures d * (2 * h) == 2 * (d * h)
  {}

  lemma EvenFactor(d: int, m: int, n: int)
    requires d % 2 == 1 && d * m == 2 * n
    ensures m % 2 == 0
  {
    var h := d / 2;
    assert d == 2 * h + 1;
    assert (2 * h + 1) * m == 2 * (h * m) + m by { Spread2(h, m); }
  }

  lemma Spread2(h: int, m: int)
    ensures (2 * h + 1) * m == 2 * (h * m) + m
  {}

  /** Different steps within one round look at different slots. */
  lemma {:induction false} ProbesDiffer(key: nat, k: nat, i: nat, j: nat)
    requires i < j < Power(2, k)
    ensures Probe(key, Power(2, k), i) != Probe(key, Power(2, k), j)
  {
    var size := Power(2, k);
    var d := Delta(key, size);
    if k > 0 && Probe(key, size, i) == Probe(key, size, j) {
      var p := ProbeIs(key, size, i);
      var q := ProbeIs(key, size, j);
      Expand(d, i, j - i);
      Expand(size, p, q - p);
      DeltaOdd(key, k);
      var f := OddDivides(k, d, j - i, q - p);
      SmallMultiple(size, j - i, f);
    }
  }

  lemma SmallMultiple(size: nat, m: nat, f: int)
    requires m == size * f && m < size
    ensures m == 0
  {
    if f >= 1 {
      Times(size, f, 1);
    } else {
      Times(size, 0, f);
    }
  }

  /** After a whole round the probe is back at its start. */
  lemma {:induction false} ProbeReturns(key: nat, k: nat)
    ensures Power(2, k) > 0 && Probe(key, Power(2, k), Power(2, k)) == Start(key, Power(2, k))
  {
    PowerTwo(k);
    var size := Power(2, k);
    var q := ProbeIs(key, size, size);
    var d, p := Delta(key, size), Probe(key, size, size);
    assert d * size == size * d;
    Expand(size, d, -q);
    assert p == Start(key, size) + size * (d - q);
    if d - q >= 1 {
      Times(size, d - q, 1);
    } else if d - q <= -1 {
      Times(size, -1, d - q);
    }
  }

  function Probes(key: nat, size: nat, n: nat): set<nat>
    requires size > 0
  {
    set j | 0 <= j < n :: Probe(key, size, j)
  }

  lemma {:induction false} ProbesCount(key: nat, k: nat, n: nat)
    requires n <= Power(2, k) && Power(2, k) > 0
    ensures |Probes(key, Power(2, k), n)| == n
  {
    var size := Power(2, k);
    if n == 0 {
      assert Probes(key, size, 0) == {};
    } else {
      ProbesCount(key, k, n - 1);
      forall j | 0 <= j < n - 1
        ensures Probe(key, size, j) != Probe(key, size, n - 1)
      {
        ProbesDiffer(key, k, j, n - 1);
      }
      assert Probes(key, size, n) == Probes(key, size, n - 1) + {Probe(key, size, n - 1)};
    }
  }

  /** In one round every slot is looked at. */
  lemma ProbesCover(key: nat, k: nat, slot: nat)
    requires slot < Power(2, k)
    ensures exists j :: 0 <= j < Power(2, k) && Probe(key, Power(2, k), j) == slot
  {
    PowerTwo(k);
    var size := Power(2, k);
    ProbesCount(key, k, size);
    BelowCount(size);
    SubsetCount(Probes(key, size, size), Below(size));
    assert slot in Probes(key, size, size);
  }

  // ---- the table --------------------------------------------------------------------------

  /** The first `j` slots looked at for a key are used by other keys. */
  ghost predicate Passes(t: seq<Entry>, key: nat, j: nat) {
    |t| > 0 && forall i | 0 <= i < j :: t[Probe(key, |t|, i)].key != EMPTY && t[Probe(key, |t|, i)].key != key
  }

  /** A slot is where looking for its key ends. */
  ghost predicate Reached(t: seq<Entry>, key: nat, slot: nat) {
    |t| > 0 && exists j :: 0 <= j < |t| && Probe(key, |t|, j) == slot && Passes(t, key, j)
  }

  ghost predicate HasFree(t: seq<Entry>) { exists s :: 0 <= s < |t| && t[s].key == EMPTY }

  ghost predicate Refines(t: seq<Entry>, contents: map<nat, int>) {
    && (forall s | 0 <= s < |t| && t[s].key != EMPTY ::
          t[s].key in contents && contents[t[s].key] == t[s].data && Reached(t, t[s].key, s))
    && (forall key | key in contents :: key != EMPTY && InTable(t, key))
  }

  ghost predicate InTable(t: seq<Entry>, key: nat) { exists s :: 0 <= s < |t| && t[s].key == key }

  class HashTable {
    const logsize: nat
    const size: nat
    const table: array<Entry>
    ghost var contents: map<nat, int>

    ghost predicate Valid()
      reads this, table
    {
      size == Power(2, logsize) == table.Length && Refines(table[..], contents)
    }

    /** The size is raised to the next power of two above. */
    constructor (wanted: nat)
      ensures Valid() && contents == map[] && fresh(table)
      ensures size > wanted && (logsize > 0 ==> Power(2, logsize - 1) <= wanted)
    {
      var i := LogAbove(wanted);
      logsize := i;
      size := Power(2, i);
      table := new Entry[Power(2, i)](_ => Entry(EMPTY, 0));
      contents := map[];
    }

    /** Looks for a key: its slot, or when it is absent nothing, or for insertion the
        slot it should get. Gives up when the table is full of other keys. */
    method Lookup(key: nat, insert: bool) returns (f: Found)
      requires Valid() && key < WORD && key != EMPTY
      ensures key in contents <==> f.Slot? && f.index < size && table[f.index].key == key
      ensures key in contents ==> table[f.index] == Entry(key, contents[key])
      ensures f.Full? <==> key !in contents && !HasFree(table[..])
      ensures f.Missing? <==> key !in contents && HasFree(table[..]) && !insert
      ensures f.Slot? && key !in contents ==>
                f.index < size && table[f.index].key == EMPTY && Reached(table[..], key, f.index)
    {
      hide Start, Delta, Probe, Passes, Refines, Reached, HasFree, Power;
      PowerTwo(logsize);
      ghost var t := table[..];
      var start, delta := Start(key, size), Delta(key, size);
      var cur := start;
      ghost var j := 0;
      ProbeStart(key, size);
      NonePassed(t, key);
      while true
        invariant j < size && cur == Probe(key, size, j) && Passes(t, key, j)
        decreases size - j
      {
        if table[cur].key == key {
          EndsPresent(t, contents, key, cur);
          return Slot(cur);
        }
        if table[cur].key == EMPTY {
          EndsAbsent(t, contents, key, j);
          return if insert then Slot(cur) else Missing;
        }
        PassesMore(t, key, j);
        ProbeNext(key, size, j);
        cur := (cur + delta) % size;
        j := j + 1;
        RoundEnds(key, logsize, j);
        if cur == start {
          AllPassed(t, contents, key, logsize);
          return Full;
        }
      }
    }

    /** Adds a key that is not there; reports failure when it is, or when there is no
        slot left. */
    method Insert(e: Entry) returns (ok: bool)
      requires Valid() && e.key < WORD && e.key != EMPTY
      modifies table, this`contents
      ensures Valid()
      ensures ok <==> e.key !in old(contents) && HasFree(old(table[..]))
      ensures contents == if ok then old(contents)[e.key := e.data] else old(contents)
      ensures !ok ==> table[..] == old(table[..])
    {
      var f := Lookup(e.key, true);
      if !f.Slot? || table[f.index].key != EMPTY {
        return false;
      }
      InsertRefines(table[..], contents, f.index, e);
      assert HasFree(table[..]) by { assert table[..][f.index].key == EMPTY; }
      table[f.index] := e;
      contents := contents[e.key := e.data];
      assert table[..] == old(table[..])[f.index := e];
      return true;
    }
  }

  /** Counts the halvings until nothing is left. */
  method LogAbove(wanted: nat) returns (i: nat)
    ensures wanted < Power(2, i) && (i > 0 ==> Power(2, i - 1) <= wanted)
  {
    var n := wanted;
    i := 0;
    while n > 0
      invariant Scaled(n, i) <= wanted < Scaled(n + 1, i)
      invariant i > 0 ==> Power(2, i - 1) <= wanted
      decreases n
    {
      HalveBounds(n, i, wanted);
      n := n / 2;
      i := i + 1;
    }
  }

  function Scaled(n: int, i: nat): int { Power(2, i) * n }

  lemma {:induction false} HalveBounds(n: nat, i: nat, wanted: nat)
    requires n > 0 && Scaled(n, i) <= wanted < Scaled(n + 1, i)
    ensures Scaled(n / 2, i + 1) <= wanted < Scaled(n / 2 + 1, i + 1) && Power(2, i) <= wanted
  {
    assert Power(2, i + 1) == 2 * Power(2, i);
    HalveParts(n, Power(2, i), wanted);
  }

  lemma HalveParts(n: nat, p: nat, wanted: nat)
    requires n > 0 && p * n <= wanted < p * (n + 1)
    ensures 2 * p * (n / 2) <= wanted < 2 * p * (n / 2 + 1) && p <= wanted
  {
    Twice(p, n / 2);
    Twice(p, n / 2 + 1);
    TwiceIn(p, n / 2);
    TwiceIn(p, n / 2 + 1);
    Times(p, n, 2 * (n / 2));
    Times(p, 2 * (n / 2 + 1), n + 1);
    Times(p, n, 1);
  }

  lemma TwiceIn(p: int, a: int)
    ensures 2 * (p * a) == p * (2 * a)
  {}

  lemma {:induction false} ProbeStart(key: nat, size: nat)
    requires size > 0
    ensures Probe(key, size, 0) == Start(key, size)
  {}

  lemma ProbeNext(key: nat, size: nat, j: nat)
    requires size > 0
    ensures Probe(key, size, j + 1) == (Probe(key, size, j) + Delta(key, size)) % size
  {}

  lemma NonePassed(t: seq<Entry>, key: nat)
    requires |t| > 0
    ensures Passes(t, key, 0)
  {}

  lemma PassesMore(t: seq<Entry>, key: nat, j: nat)
    requires |t| > 0 && Passes(t, key, j) && t[Probe(key, |t|, j)].key != EMPTY && t[Probe(key, |t|, j)].key != key
    ensures Passes(t, key, j + 1)
  {
    hide Probe;
  }

  /** Where the search for a key in the table ends. */
  lemma WhereKey(t: seq<Entry>, contents: map<nat, int>, key: nat) returns (i: nat)
    requires Refines(t, contents) && key in contents
    ensures i < |t| && Passes(t, key, i) && t[Probe(key, |t|, i)] == Entry(key, contents[key])
  {
    hide Probe, Passes;
    assert InTable(t, key);
    var s :| 0 <= s < |t| && t[s].key == key;
    assert Reached(t, key, s);
    i :| 0 <= i < |t| && Probe(key, |t|, i) == s && Passes(t, key, i);
  }

  /** A search ends in one place. */
  lemma {:induction false} SameEnd(t: seq<Entry>, key: nat, i: nat, j: nat)
    requires |t| > 0 && Passes(t, key, i) && Passes(t, key, j)
    requires t[Probe(key, |t|, i)].key == key
    requires (t[Probe(key, |t|, j)].key == EMPTY || t[Probe(key, |t|, j)].key == key)
    requires key != EMPTY
    ensures i == j
  {
    hide Probe;
  }

  lemma EndsPresent(t: seq<Entry>, contents: map<nat, int>, key: nat, cur: nat)
    requires Refines(t, contents) && cur < |t| && t[cur].key == key && key != EMPTY
    ensures key in contents && t[cur] == Entry(key, contents[key])
  {
    hide Reached;
  }

  /** An unused slot on the way means the key is absent. */
  lemma {:induction false} EndsAbsent(t: seq<Entry>, contents: map<nat, int>, key: nat, j: nat)
    requires Refines(t, contents) && key != EMPTY && j < |t| && Passes(t, key, j) && t[Probe(key, |t|, j)].key == EMPTY
    ensures key !in contents && HasFree(t) && Reached(t, key, Probe(key, |t|, j))
  {
    hide Probe, Passes, Refines;
    if key in contents {
      var i := WhereKey(t, contents, key);
      SameEnd(t, key, i, j);
    }
  }

  /** The start comes round again only after a whole round. */
  lemma {:induction false} RoundEnds(key: nat, k: nat, j: nat)
    requires 0 < j <= Power(2, k)
    ensures Probe(key, Power(2, k), j) == Start(key, Power(2, k)) <==> j == Power(2, k)
  {
    if j < Power(2, k) {
      ProbesDiffer(key, k, 0, j);
    } else {
      ProbeReturns(key, k);
    }
  }

  lemma {:induction false} AllPassed(t: seq<Entry>, contents: map<nat, int>, key: nat, k: nat)
    requires |t| == Power(2, k) && Refines(t, contents) && Passes(t, key, |t|)
    ensures key !in contents && !HasFree(t)
  {
    forall s | 0 <= s < |t|
      ensures t[s].key != key && t[s].key != EMPTY
    {
      ProbesCover(key, k, s);
    }
    hide Probe, Passes, Reached;
    assert key in contents ==> InTable(t, key);
  }

  /** Filling the slot where looking for a new key ends. */
  lemma InsertRefines(t: seq<Entry>, contents: map<nat, int>, slot: nat, e: Entry)
    requires Refines(t, contents) && slot < |t| && t[slot].key == EMPTY && e.key !in contents && e.key != EMPTY
    requires Reached(t, e.key, slot)
    ensures Refines(t[slot := e], contents[e.key := e.data])
  {
    var u := t[slot := e];
    forall s | 0 <= s < |u| && u[s].key != EMPTY
      ensures Reached(u, u[s].key, s)
    {
      InsertReached(t, contents, slot, e, s);
    }
    hide Reached;
    forall key | key in contents[e.key := e.data]
      ensures InTable(u, key)
    {
      if key == e.key {
        assert u[slot].key == key;
      } else {
        assert InTable(t, key);
        var s :| 0 <= s < |t| && t[s].key == key;
        assert u[s].key == key;
      }
    }
  }

  lemma InsertReached(t: seq<Entry>, contents: map<nat, int>, slot: nat, e: Entry, s: nat)
    requires Refines(t, contents) && slot < |t| && t[slot].key == EMPTY && e.key !in contents && e.key != EMPTY
    requires Reached(t, e.key, slot) && s < |t| && t[slot := e][s].key != EMPTY
    ensures Reached(t[slot := e], t[slot := e][s].key, s)
  {
    hide Probe;
    var u := t[slot := e];
    var key := u[s].key;
    assert Reached(t, key, s);
    var j :| 0 <= j < |t| && Probe(key, |t|, j) == s && Passes(t, key, j);
    assert Passes(u, key, j);
  }
}

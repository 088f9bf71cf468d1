/** Fields of a machine word. A word is a natural number, a field of `b` values at
    place `k` is a digit in base `b`: for a power of two, shifting right is dividing,
    masking is taking the remainder, and joining a field that lies above all others
    is adding its multiple. */
module Packing {
  function Power(base: nat, n: nat): nat { if n == 0 then 1 else base * Power(base, n - 1) }

  lemma DivNat(w: nat, base: nat)
    requires base > 0
    ensures w / base >= 0
  {
    if w / base <= -1 {
      Times(base, -1, w / base);
    }
  }

  function Shift(w: int, base: nat, k: nat): int
    requires base > 0
    decreases k
  {
    if k == 0 then w else Shift(w / base, base, k - 1)
  }

  function Digit(w: int, base: nat, k: nat): (d: nat)
    requires base > 0
    ensures d < base
  {
    Shift(w, base, k) % base
  }

  lemma ShiftNext(w: int, base: nat, k: nat)
    requires base > 0
    ensures Shift(w, base, k + 1) == Shift(w, base, k) / base
    decreases k
  {
    if k > 0 {
      ShiftNext(w / base, base, k - 1);
    }
  }

  predicate AllBelow(ds: seq<nat>, base: nat) { forall k | 0 <= k < |ds| :: ds[k] < base }

  /** The word with these fields, the first lowest. */
  function Pack(ds: seq<nat>, base: nat): nat {
    if ds == [] then 0 else ds[0] + base * Pack(ds[1..], base)
  }

  lemma DivMod(base: nat, d: nat, r: nat)
    requires d < base
    ensures (d + base * r) / base == r && (d + base * r) % base == d
  {
    var n := d + base * r;
    assert base * (n / base - r) == d - n % base;
    if n / base - r >= 1 {
      Times(base, n / base - r, 1);
    } else if n / base - r <= -1 {
      Times(base, -1, n / base - r);
    }
  }

  lemma Times(base: nat, x: int, y: int)
    requires x >= y
    ensures base * x >= base * y
  {
    assert base * (x - y) >= 0;
  }

  lemma ModInt(base: nat, d: nat, r: int)
    requires d < base
    ensures (base * r + d) % base == d
  {
    var n := base * r + d;
    assert base * (n / base - r) == d - n % base;
    if n / base - r >= 1 {
      Times(base, n / base - r, 1);
    } else if n / base - r <= -1 {
      Times(base, -1, n / base - r);
    }
  }

  /** Numbers less than `base` apart with the same remainder are the same. */
  lemma ModNear(base: nat, x: int, y: int)
    requires base > 0 && x - y < base && y - x < base
    ensures x % base == y % base ==> x == y
  {
    if x % base == y % base {
      assert x - y == base * (x / base - y / base);
      if x / base - y / base >= 1 {
        Times(base, x / base - y / base, 1);
      } else if x / base - y / base <= -1 {
        Times(base, -1, x / base - y / base);
      }
    }
  }

  lemma ModNext(base: nat, x: int)
    requires base > 0
    ensures (x + 1) % base == if x % base + 1 == base then 0 else x % base + 1
  {
    var q, r := x / base, x % base;
    assert x + 1 == base * q + (r + 1);
    if r + 1 < base {
      ModInt(base, r + 1, q);
    } else {
      assert x + 1 == base * (q + 1) + 0;
      ModInt(base, 0, q + 1);
    }
  }

  lemma {:induction false} ShiftZero(base: nat, k: nat)
    requires base > 0
    ensures Shift(0, base, k) == 0
  {
    if k > 0 {
      ShiftZero(base, k - 1);
    }
  }

  /** A packed field reads back as it was; those above the last are zero. */
  lemma {:induction false} DigitOfPack(ds: seq<nat>, base: nat, k: nat)
    requires base > 0 && AllBelow(ds, base)
    ensures Digit(Pack(ds, base), base, k) == if k < |ds| then ds[k] else 0
    decreases ds
  {
    if ds == [] {
      ShiftZero(base, k);
    } else {
      DivMod(base, ds[0], Pack(ds[1..], base));
      if k > 0 {
        DigitOfPack(ds[1..], base, k - 1);
      }
    }
  }

  lemma {:induction false} PackSnoc(ds: seq<nat>, d: nat, base: nat)
    ensures Pack(ds + [d], base) == Pack(ds, base) + d * Power(base, |ds|)
    decreases ds
  {
    if ds == [] {
      assert [] + [d] == [d] && [d][1..] == [];
      assert Pack([d], base) == d + base * Pack([], base);
    } else {
      assert (ds + [d])[1..] == ds[1..] + [d] && (ds + [d])[0] == ds[0];
      PackSnoc(ds[1..], d, base);
      Spread(base, Pack(ds[1..], base), d, Power(base, |ds| - 1));
    }
  }

  lemma Spread(base: nat, p: nat, d: nat, power: nat)
    ensures base * (p + d * power) == base * p + d * (base * power)
  {
    assert base * (p + d * power) == base * p + base * (d * power);
    assert base * (d * power) == d * (base * power);
  }

  /** What lies above the fields does not disturb them. */
  lemma {:induction false} DigitBelow(low: nat, high: nat, base: nat, n: nat, k: nat)
    requires base > 0 && k < n
    ensures Digit(low + high * Power(base, n), base, k) == Digit(low, base, k)
    decreases k
  {
    var w := low + high * Power(base, n);
    var rest := high * Power(base, n - 1);
    assert high * Power(base, n) == base * rest by { Spread(base, 0, high, Power(base, n - 1)); }
    assert low == low % base + base * (low / base);
    assert w == low % base + base * (low / base + rest);
    DivMod(base, low % base, low / base + rest);
    if k > 0 {
      DigitBelow(low / base, high, base, n - 1, k - 1);
    }
  }

  // ---- words of equally wide fields -------------------------------------------

  /** Fields of base `b` laid out `per` to a word, the last word filled up with
      zeros; no fields at all still take a word. `acc` holds the fields of the
      current word, of which there are `pos`. */
  function Layout(acc: nat, pos: nat, ds: seq<nat>, base: nat, per: nat): seq<nat>
    requires per > 0 && pos <= per
    decreases |ds|, pos
  {
    if ds == [] then [acc]
    else if pos == per then [acc] + Layout(0, 0, ds, base, per)
    else Layout(acc + ds[0] * Power(base, pos), pos + 1, ds[1..], base, per)
  }

  function WordsFor(n: nat, per: nat): nat
    requires per > 0
  {
    if n == 0 then 1 else (n + per - 1) / per
  }

  /** The words hold the fields, and nothing else. */
  ghost predicate Holds(ws: seq<nat>, ds: seq<nat>, base: nat, per: nat)
    requires base > 0 && per > 0
  {
    && |ws| == WordsFor(|ds|, per)
    && forall k: nat :: Field(ws, base, per, k) == if k < |ds| then ds[k] else 0
  }

  /** The `k`th field of the words, zero past their end. */
  function Field(ws: seq<nat>, base: nat, per: nat, k: nat): nat
    requires base > 0 && per > 0
  {
    DivNat(k, per);
    if k / per < |ws| then Digit(ws[k / per], base, k % per) else 0
  }

  /** Fields laid out in words are found again by their position. */
  lemma {:induction false} LayoutGives(done: seq<nat>, ds: seq<nat>, base: nat, per: nat)
    requires base > 0 && per > 0 && |done| <= per && AllBelow(done + ds, base)
    ensures Holds(Layout(Pack(done, base), |done|, ds, base, per), done + ds, base, per)
    decreases |ds|, |done|
  {
    hide Holds, Pack, WordsFor;
    if ds == [] {
      assert done + ds == done;
      OneWord(done, base, per);
    } else if |done| == per {
      assert [] + ds == ds;
      assert AllBelow(ds, base) by { BackBelow(done, ds, base); }
      assert Pack([], base) == 0 by { PackNil(base); }
      LayoutGives([], ds, base, per);
      MoreWords(done, ds, Layout(0, 0, ds, base, per), base, per);
    } else {
      PackSnoc(done, ds[0], base);
      assert done + [ds[0]] + ds[1..] == done + ds;
      LayoutGives(done + [ds[0]], ds[1..], base, per);
    }
  }

  lemma {:induction false} PackNil(base: nat)
    ensures Pack([], base) == 0
  {}

  lemma {:induction false} OneWord(done: seq<nat>, base: nat, per: nat)
    requires base > 0 && per > 0 && |done| <= per && AllBelow(done, base)
    ensures Holds([Pack(done, base)], done, base, per)
  {
    hide Digit, WordsFor, Pack;
    Words1(|done|, per);
    forall k: nat
      ensures Field([Pack(done, base)], base, per, k) == if k < |done| then done[k] else 0
    {
      if k < per {
        Small(k, per);
        DigitOfPack(done, base, k);
      } else {
        Minus(k, per);
        DivNat(k - per, per);
      }
    }
  }

  lemma {:induction false} MoreWords(done: seq<nat>, ds: seq<nat>, rest: seq<nat>, base: nat, per: nat)
    requires base > 0 && per > 0 && |done| == per && AllBelow(done + ds, base) && ds != []
    requires Holds(rest, ds, base, per)
    ensures Holds([Pack(done, base)] + rest, done + ds, base, per)
  {
    hide Digit, WordsFor, Pack;
    var ws := [Pack(done, base)] + rest;
    Words2(|ds|, per);
    forall k: nat
      ensures Field(ws, base, per, k) == if k < |done + ds| then (done + ds)[k] else 0
    {
      if k < per {
        Small(k, per);
        assert AllBelow(done, base) by { FrontBelow(done, ds, base); }
        DigitOfPack(done, base, k);
      } else {
        FieldMinus(Pack(done, base), rest, base, per, k);
      }
    }
  }

  lemma FrontBelow(a: seq<nat>, b: seq<nat>, base: nat)
    requires AllBelow(a + b, base)
    ensures AllBelow(a, base)
  {
    forall k | 0 <= k < |a|
      ensures a[k] < base
    {
      assert (a + b)[k] == a[k];
    }
  }

  lemma BackBelow(a: seq<nat>, b: seq<nat>, base: nat)
    requires AllBelow(a + b, base)
    ensures AllBelow(b, base)
  {
    forall k | 0 <= k < |b|
      ensures b[k] < base
    {
      assert (a + b)[|a| + k] == b[k];
    }
  }

  lemma FieldMinus(w: nat, rest: seq<nat>, base: nat, per: nat, k: nat)
    requires base > 0 && k >= per > 0
    ensures Field([w] + rest, base, per, k) == Field(rest, base, per, k - per)
  {
    hide Digit;
    Minus(k, per);
    DivNat(k - per, per);
  }

  lemma Small(k: nat, per: nat)
    requires k < per
    ensures k / per == 0 && k % per == k
  {}

  lemma Minus(k: nat, per: nat)
    requires k >= per > 0
    ensures k / per == (k - per) / per + 1 && k % per == (k - per) % per
  {
    var q, r := (k - per) / per, (k - per) % per;
    assert k == r + per * (q + 1);
    DivMod(per, r, q + 1);
  }

  lemma Words1(n: nat, per: nat)
    requires n <= per && per > 0
    ensures WordsFor(n, per) == 1
  {
    if n > 0 {
      DivMod(per, n - 1, 1);
      assert n + per - 1 == n - 1 + per * 1;
    }
  }

  lemma Words2(n: nat, per: nat)
    requires n > 0 && per > 0
    ensures WordsFor(per + n, per) == 1 + WordsFor(n, per)
  {
    Minus(per + n + per - 1, per);
  }
}

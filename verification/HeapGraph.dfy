/** Objects in a word-addressed memory, the graph they form, and how many words
    a set of them occupies. */
module HeapGraph {
  import opened Tags
  import opened Counting

  type Memory = seq<nat>

  /** The addresses a pointer into a space can take, in words. The upper bound
      belongs to the range: an empty array in the last word points at it. */
  datatype Range = Range(low: nat, high: nat) {
    predicate Contains(v: nat) { 4 * low <= v <= 4 * high }
  }

  function Word(m: Memory, i: int): nat { if 0 <= i < |m| then m[i] else 0 }

  function Tag(m: Memory, a: nat): nat { Word(m, a - 1) }

  function Field(m: Memory, a: nat, j: nat): nat { Word(m, a + j) }

  function Length(m: Memory, a: nat): nat { DataWords(Tag(m, a)) }

  predicate Traced(m: Memory, a: nat, j: nat) {
    j < Length(m, a) && IsPointerField(Tag(m, a), j)
  }

  predicate IsObject(m: Memory, a: nat) {
    0 < a <= |m| && IsObjectTag(Tag(m, a)) && a + Length(m, a) <= |m|
  }

  ghost function Interval(low: int, n: nat): (s: set<int>)
    ensures forall i :: i in s <==> low <= i < low + n
    ensures |s| == n
  {
    if n == 0 then {} else Interval(low, n - 1) + {low + n - 1}
  }

  /** The words of an object, tag included. */
  ghost function Extent(m: Memory, a: nat): set<int> {
    Interval(a - 1, 1 + Length(m, a))
  }

  ghost function Cover(m: Memory, objects: set<nat>): set<int> {
    set a, i | a in objects && i in Extent(m, a) :: i
  }

  /** A word that, if it points into the range, points at one of the objects. */
  predicate PointsInto(v: nat, range: Range, objects: set<nat>) {
    range.Contains(v) ==> v % 4 == 0 && v / 4 in objects
  }

  ghost predicate FieldsPointInto(m: Memory, a: nat, range: Range, objects: set<nat>) {
    forall j: nat | Traced(m, a, j) :: PointsInto(Field(m, a, j), range, objects)
  }

  ghost predicate Apart(m: Memory, a: nat, b: nat) {
    a + Length(m, a) < b || b + Length(m, b) < a
  }

  /** The objects of a space below `used`: apart from each other, and closed
      under their own pointers and those in the root locations. */
  ghost predicate WellFormed(m: Memory, range: Range, used: nat, objects: set<nat>, locs: set<nat>) {
    && range.low <= used <= range.high <= |m|
    && (forall a | a in objects ::
          IsObject(m, a) && range.low < a && a + Length(m, a) <= used && FieldsPointInto(m, a, range, objects))
    && (forall a, b | a in objects && b in objects && a != b :: Apart(m, a, b))
    && (forall l | l in locs :: l < |m| && PointsInto(m[l], range, objects))
  }

  /** A set of objects that contains what the roots point at and what its own
      members point at. */
  ghost predicate Closed(m: Memory, range: Range, locs: set<nat>, s: set<nat>) {
    && (forall l | l in locs :: PointsInto(Word(m, l), range, s))
    && (forall a | a in s :: FieldsPointInto(m, a, range, s))
  }

  /** The live objects: the least closed set. */
  ghost predicate IsLive(m: Memory, range: Range, locs: set<nat>, live: set<nat>) {
    Closed(m, range, locs, live) && forall s | Closed(m, range, locs, s) :: live <= s
  }

  /** Words occupied by a sequence of objects laid out one after another. */
  function Total(m: Memory, order: seq<nat>): nat {
    if order == [] then 0
    else Total(m, order[..|order| - 1]) + 1 + Length(m, order[|order| - 1])
  }

  lemma CoverUnion(m: Memory, rest: set<nat>, last: nat)
    ensures Cover(m, rest + {last}) == Cover(m, rest) + Extent(m, last)
  {
    forall i | i in Extent(m, last)
      ensures i in Cover(m, rest + {last})
    {
      assert last in rest + {last};
    }
  }

  lemma CoverApart(m: Memory, rest: set<nat>, last: nat)
    requires forall a | a in rest :: Apart(m, a, last)
    ensures Cover(m, rest) !! Extent(m, last)
  {}

  lemma CoverSplit(m: Memory, rest: set<nat>, last: nat)
    requires forall a | a in rest :: Apart(m, a, last)
    ensures |Cover(m, rest + {last})| == |Cover(m, rest)| + 1 + Length(m, last)
  {
    CoverUnion(m, rest, last);
    CoverApart(m, rest, last);
  }

  /** Objects that lie apart cover as many words as they total. */
  lemma {:induction false} TotalIsCover(m: Memory, order: seq<nat>, objects: set<nat>)
    requires Distinct(order)
    requires objects == set a | a in order
    requires forall a, b | a in objects && b in objects && a != b :: Apart(m, a, b)
    ensures |Cover(m, objects)| == Total(m, order)
  {
    if order == [] {
      assert Cover(m, objects) == {};
    } else {
      var front, last := order[..|order| - 1], order[|order| - 1];
      var rest := set a | a in front;
      assert objects == rest + {last} by { assert order == front + [last]; }
      assert last !in rest;
      TotalIsCover(m, front, rest);
      CoverSplit(m, rest, last);
    }
  }

  /** Distinct objects of a well-formed space total no more than its used words:
      copying each once needs no more room than the space they came from. */
  lemma {:induction false} TotalFits(m: Memory, range: Range, used: nat, objects: set<nat>, locs: set<nat>,
                                     order: seq<nat>)
    requires WellFormed(m, range, used, objects, locs)
    requires Distinct(order) && forall a | a in order :: a in objects
    ensures Total(m, order) <= used - range.low
  {
    var s := set a | a in order;
    TotalIsCover(m, order, s);
    var all := Interval(range.low, used - range.low);
    forall i | i in Cover(m, s)
      ensures i in all
    {
      var a :| a in s && i in Extent(m, a);
      assert a in objects;
    }
    SubsetCount(Cover(m, s), all);
  }

  /** There is a least closed set: what every closed set shares. */
  lemma LiveExists(m: Memory, range: Range, used: nat, objects: set<nat>, locs: set<nat>) returns (live: set<nat>)
    requires WellFormed(m, range, used, objects, locs)
    ensures IsLive(m, range, locs, live) && live <= objects
  {
    live := set a | a in objects && forall s | Closed(m, range, locs, s) :: a in s;
    assert Closed(m, range, locs, objects);
    forall l | l in locs
      ensures PointsInto(Word(m, l), range, live)
    {
      assert PointsInto(Word(m, l), range, objects);
    }
    forall a, j: nat | a in live && Traced(m, a, j)
      ensures PointsInto(Field(m, a, j), range, live)
    {
      assert FieldsPointInto(m, a, range, objects);
      forall s | Closed(m, range, locs, s)
        ensures PointsInto(Field(m, a, j), range, s)
      {
        assert FieldsPointInto(m, a, range, s);
      }
    }
  }

  /** Words occupied by a set of objects. */
  ghost function Words(m: Memory, objects: set<nat>): nat { |Cover(m, objects)| }

  /** The members of a set total no more than the words of any set around it. */
  lemma {:induction false} TotalWithin(m: Memory, range: Range, used: nat, objects: set<nat>, locs: set<nat>,
                                       order: seq<nat>, live: set<nat>)
    requires WellFormed(m, range, used, objects, locs) && live <= objects
    requires Distinct(order) && forall a | a in order :: a in live
    ensures Total(m, order) <= Words(m, live)
    ensures (forall a | a in live :: a in order) ==> Total(m, order) == Words(m, live)
  {
    var s := set a | a in order;
    TotalIsCover(m, order, s);
    assert Cover(m, s) <= Cover(m, live);
    SubsetCount(Cover(m, s), Cover(m, live));
    if forall a | a in live :: a in order {
      assert s == live;
    }
  }
}

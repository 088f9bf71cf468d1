/** The tags the compiler gives objects, and what the collector reads in them. */
module RecordTags {
  import opened Tags
  import opened Packing
  import opened Wrappers

  /** A field that is traced, or not; one whose type, at the end of a path, tells when the
      record is made; or one a record cannot have. */
  datatype Flag = Traced | Untraced | Compute(path: nat) | Illegal

  /** A bit to be set if the type at the end of the path is that of a pointer. */
  datatype Dynamic = Dynamic(bitpos: nat, path: nat)

  datatype RecordTag = RecordTag(fixed: nat, open: seq<Dynamic>)

  const MAX_RECORD_LENGTH := 24

  function StaticMask(flags: seq<Flag>): nat {
    if flags == [] then 0 else (if flags[0].Traced? then 1 else 0) + 2 * StaticMask(flags[1..])
  }

  function DynamicMask(flags: seq<Flag>, pos: nat): seq<Dynamic>
    decreases |flags|
  {
    if flags == [] then []
    else (if flags[0].Compute? then [Dynamic(pos, flags[0].path)] else []) + DynamicMask(flags[1..], pos + 1)
  }

  function StaticTag(flags: seq<Flag>): nat { RECORD_TYPE + 8 * |flags| + 256 * StaticMask(flags) }

  /** The tag of a record, unless it is empty, too long or has an illegal field. */
  function MakeTag(flags: seq<Flag>): Option<RecordTag> {
    if flags == [] || |flags| > MAX_RECORD_LENGTH || Illegal in flags then None
    else Some(RecordTag(StaticTag(flags), DynamicMask(flags, 8)))
  }

  /** Joining a bit with a word. */
  function WithFlag(tag: nat, bitpos: nat): nat { if MaskBit(tag, bitpos) then tag else tag + Power(2, bitpos) }

  /** What the code that makes the record does with the bits left open. */
  function AddDynamic(tag: nat, dynamic: seq<Dynamic>, isPointer: nat -> bool): nat
    decreases |dynamic|
  {
    if dynamic == [] then tag
    else
      var d := dynamic[0];
      AddDynamic(if isPointer(d.path) then WithFlag(tag, d.bitpos) else tag, dynamic[1..], isPointer)
  }

  function WordArrayTag(byteLen: nat): nat { 8 * byteLen + WORD_ARRAY_TYPE }

  function QuadArrayTag(byteLen: nat): nat { 8 * byteLen + 3 }

  function PtrArrayTag(byteLen: nat): nat { 8 * byteLen + PTR_ARRAY_TYPE }

  function MirrorPtrArrayTag(byteLen: nat): nat { 8 * byteLen + 6 }

  // ---- reading ------------------------------------------------------------------------------

  lemma {:induction false} StaticBit(flags: seq<Flag>, j: nat)
    ensures MaskBit(StaticMask(flags), j) <==> j < |flags| && flags[j].Traced?
  {
    if flags == [] {
      ZeroBit(j);
    } else {
      FirstBit(flags);
      if j > 0 {
        StaticBit(flags[1..], j - 1);
      }
      hide StaticMask;
    }
  }

  lemma {:induction false} FirstBit(flags: seq<Flag>)
    requires flags != []
    ensures StaticMask(flags) / 2 == StaticMask(flags[1..])
    ensures StaticMask(flags) % 2 == 1 <==> flags[0].Traced?
  {}

  lemma {:induction false} ZeroBit(j: nat)
    ensures !MaskBit(0, j)
  {
    if j > 0 {
      ZeroBit(j - 1);
    }
  }

  lemma {:induction false} MaskBound(flags: seq<Flag>)
    ensures StaticMask(flags) < Power(2, |flags|)
  {
    if flags != [] {
      MaskBound(flags[1..]);
    }
  }

  /** Setting the bit of one field. */
  lemma {:induction false} MaskSet(flags: seq<Flag>, j: nat)
    requires j < |flags| && !flags[j].Traced?
    ensures StaticMask(flags[j := Traced]) == StaticMask(flags) + Power(2, j)
  {
    var now := flags[j := Traced];
    if j == 0 {
      assert now[1..] == flags[1..];
    } else {
      assert now[1..] == flags[1..][j - 1 := Traced];
      MaskSet(flags[1..], j - 1);
    }
  }

  /** The mask is the tag shifted right. */
  lemma {:induction false} HighBits(tag: nat, j: nat)
    ensures MaskBit(tag, 8 + j) <==> MaskBit(tag / 256, j)
  {
    Halves(tag);
    assert MaskBit(tag, 8 + j) <==> MaskBit(tag / 2, 7 + j);
    assert MaskBit(tag / 2, 7 + j) <==> MaskBit(tag / 2 / 2, 6 + j);
    assert MaskBit(tag / 2 / 2, 6 + j) <==> MaskBit(tag / 2 / 2 / 2, 5 + j);
    assert MaskBit(tag / 2 / 2 / 2, 5 + j) <==> MaskBit(tag / 2 / 2 / 2 / 2, 4 + j);
    assert MaskBit(tag / 2 / 2 / 2 / 2, 4 + j) <==> MaskBit(tag / 2 / 2 / 2 / 2 / 2, 3 + j);
    assert MaskBit(tag / 2 / 2 / 2 / 2 / 2, 3 + j) <==> MaskBit(tag / 2 / 2 / 2 / 2 / 2 / 2, 2 + j);
    assert MaskBit(tag / 2 / 2 / 2 / 2 / 2 / 2, 2 + j) <==> MaskBit(tag / 2 / 2 / 2 / 2 / 2 / 2 / 2, 1 + j);
  }

  lemma Halves(tag: nat)
    ensures tag / 2 / 2 / 2 / 2 / 2 / 2 / 2 / 2 == tag / 256
  {}

  /** What the collector reads in a static tag. */
  lemma {:induction false} StaticRead(flags: seq<Flag>)
    requires 0 < |flags| <= MAX_RECORD_LENGTH
    ensures var tag := StaticTag(flags);
            && GetType(tag) == RECORD_TYPE && RecLen(tag) == |flags| && RecMask(tag) == StaticMask(flags)
            && tag < 0x1_0000_0000
  {
    MaskBound(flags);
    PowerGrows(|flags|);
    hide StaticMask, Power;
    TagParts(|flags|, StaticMask(flags));
  }

  lemma TagParts(len: nat, mask: nat)
    requires len <= MAX_RECORD_LENGTH && mask < 0x100_0000
    ensures var tag := RECORD_TYPE + 8 * len + 256 * mask;
            tag % 8 == RECORD_TYPE && tag / 8 % 32 == len && tag / 256 == mask && tag < 0x1_0000_0000
  {
    var tag := RECORD_TYPE + 8 * len + 256 * mask;
    assert tag / 8 == len + 32 * mask;
  }

  lemma {:induction false} PowerGrows(n: nat)
    requires n <= MAX_RECORD_LENGTH
    ensures Power(2, n) <= 0x100_0000
    decreases MAX_RECORD_LENGTH - n
  {
    if n == MAX_RECORD_LENGTH {
      Power24();
    } else {
      PowerGrows(n + 1);
    }
  }

  lemma {:induction false} Power24()
    ensures Power(2, 24) == 0x100_0000
  {
    assert Power(2, 6) == 64;
    assert Power(2, 12) == 4096;
    assert Power(2, 18) == 0x4_0000;
  }

  /** The fields as they are once the first `k` have been decided. */
  function Decided(flags: seq<Flag>, k: nat, isPointer: nat -> bool): (r: seq<Flag>)
    ensures |r| == |flags|
  {
    seq(|flags|, j requires 0 <= j < |flags| =>
      if j < k && flags[j].Compute? && isPointer(flags[j].path) then Traced else flags[j])
  }

  lemma {:induction false} DynamicFills(flags: seq<Flag>, k: nat, isPointer: nat -> bool)
    requires 0 < |flags| <= MAX_RECORD_LENGTH && k <= |flags|
    ensures AddDynamic(StaticTag(Decided(flags, k, isPointer)), DynamicMask(flags[k..], 8 + k), isPointer)
         == StaticTag(Decided(flags, |flags|, isPointer))
    decreases |flags| - k
  {
    hide StaticTag;
    if k < |flags| {
      var now, next := Decided(flags, k, isPointer), Decided(flags, k + 1, isPointer);
      assert flags[k..][1..] == flags[k + 1..] && flags[k..][0] == flags[k];
      if flags[k].Compute? && isPointer(flags[k].path) {
        assert next == now[k := Traced];
        FlagSet(now, k);
      } else {
        assert next == now;
      }
      DynamicFills(flags, k + 1, isPointer);
      var rest := DynamicMask(flags[k + 1..], 8 + (k + 1));
      var all := DynamicMask(flags[k..], 8 + k);
      if flags[k].Compute? {
        assert all == [Dynamic(8 + k, flags[k].path)] + rest;
        assert all[0] == Dynamic(8 + k, flags[k].path) && all[1..] == rest;
      } else {
        assert all == rest;
      }
    } else {
      assert flags[k..] == [];
    }
  }

  lemma FlagSet(flags: seq<Flag>, k: nat)
    requires 0 < |flags| <= MAX_RECORD_LENGTH && k < |flags| && !flags[k].Traced?
    ensures WithFlag(StaticTag(flags), 8 + k) == StaticTag(flags[k := Traced])
  {
    StaticRead(flags);
    HighBits(StaticTag(flags), k);
    StaticBit(flags, k);
    MaskSet(flags, k);
    PowerUp(k);
  }

  lemma {:induction false} PowerUp(k: nat)
    ensures Power(2, 8 + k) == 256 * Power(2, k)
  {
    assert Power(2, 8 + k) == 2 * Power(2, 7 + k);
    assert Power(2, 7 + k) == 2 * Power(2, 6 + k);
    assert Power(2, 6 + k) == 2 * Power(2, 5 + k);
    assert Power(2, 5 + k) == 2 * Power(2, 4 + k);
    assert Power(2, 4 + k) == 2 * Power(2, 3 + k);
    assert Power(2, 3 + k) == 2 * Power(2, 2 + k);
    assert Power(2, 2 + k) == 2 * Power(2, 1 + k);
  }

  /** The collector finds in a record's tag, once its open bits are filled in, the record's
      length, and that just those fields are pointers that are traced, or whose types turn
      out to be pointers'. There is a tag unless the record is empty, has more than 24
      fields or an illegal one. */
  lemma RecordTagRead(flags: seq<Flag>, isPointer: nat -> bool)
    ensures MakeTag(flags).Some? <==> 0 < |flags| <= 24 && Illegal !in flags
    ensures MakeTag(flags).Some? ==>
              var t := MakeTag(flags).value;
              var tag := AddDynamic(t.fixed, t.open, isPointer);
              && IsObjectTag(tag) && GetType(tag) == RECORD_TYPE && tag < 0x1_0000_0000 && !TagIsForward(tag)
              && DataWords(tag) == |flags|
              && forall j: nat :: IsPointerField(tag, j) <==>
                   j < |flags| && (flags[j].Traced? || (flags[j].Compute? && isPointer(flags[j].path)))
  {
    if MakeTag(flags).Some? {
      DynamicFills(flags, 0, isPointer);
      assert flags[0..] == flags && Decided(flags, 0, isPointer) == flags;
      var done := Decided(flags, |flags|, isPointer);
      StaticRead(done);
      forall j: nat
        ensures MaskBit(StaticMask(done), j) <==> j < |done| && done[j].Traced?
      {
        StaticBit(done, j);
      }
    }
  }

  /** The collector finds in an array's tag its length in bytes, and no pointers or only
      pointers. */
  lemma ArrayTagsRead(byteLen: nat)
    ensures var tag := WordArrayTag(byteLen);
            && IsObjectTag(tag) && !TagIsForward(tag) && ArrayByteLen(tag) == byteLen
            && DataWords(tag) == (byteLen + 3) / 4 && forall j: nat :: !IsPointerField(tag, j)
    ensures var tag := PtrArrayTag(byteLen);
            && (IsObjectTag(tag) <==> byteLen % 4 == 0) && !TagIsForward(tag) && ArrayByteLen(tag) == byteLen
            && DataWords(tag) == (byteLen + 3) / 4 && forall j: nat :: IsPointerField(tag, j)
  {}
}

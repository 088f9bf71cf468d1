/** The tag word in front of every heap object, and the words it describes.
    A word is a natural number, and an address is a word index: the pointer to
    the object at index `a` is the word `4 * a`, and its tag is the word at
    index `a - 1`. */
module Tags {
  const RECORD_TYPE := 1
  const WORD_ARRAY_TYPE := 2
  const PTR_ARRAY_TYPE := 5
  const STALL_TAG := 15

  function GetType(tag: nat): nat { tag % 8 }

  predicate TagIsForward(tag: nat) { tag % 4 == 0 }

  function RecLen(tag: nat): nat { (tag / 8) % 32 }

  function RecMask(tag: nat): nat { tag / 256 }

  function ArrayByteLen(tag: nat): nat { tag / 8 }

  /** Bit `j` of a mask, as a loop that shifts the mask right sees it. */
  predicate MaskBit(mask: nat, j: nat) {
    if j == 0 then mask % 2 == 1 else MaskBit(mask / 2, j - 1)
  }

  function Shifted(mask: nat, i: nat): nat {
    if i == 0 then mask else Shifted(mask / 2, i - 1)
  }

  lemma {:induction false} ShiftedBase(mask: nat)
    ensures Shifted(mask, 0) == mask
  {}

  /** Shifting right once per field brings bit `i` of the mask to the bottom. */
  lemma ShiftedBit(mask: nat, i: nat)
    ensures MaskBit(mask, i) <==> Shifted(mask, i) % 2 == 1
    ensures Shifted(mask, i + 1) == Shifted(mask, i) / 2
  {
    if i != 0 {
      ShiftedBit(mask / 2, i - 1);
    }
  }

  /** The tags an object may carry before a collection: a non-empty record, a
      word array, or a pointer array whose byte length is a multiple of four. */
  predicate IsObjectTag(tag: nat) {
    || (GetType(tag) == RECORD_TYPE && RecLen(tag) != 0)
    || GetType(tag) == WORD_ARRAY_TYPE
    || (GetType(tag) == PTR_ARRAY_TYPE && ArrayByteLen(tag) % 4 == 0)
  }

  /** The number of data words behind a tag. */
  function DataWords(tag: nat): nat {
    if GetType(tag) == RECORD_TYPE then RecLen(tag) else (ArrayByteLen(tag) + 3) / 4
  }

  /** Whether data word `j` behind the tag is traced. */
  predicate IsPointerField(tag: nat, j: nat) {
    || (GetType(tag) == RECORD_TYPE && MaskBit(RecMask(tag), j))
    || GetType(tag) == PTR_ARRAY_TYPE
  }
}

/** What the collector finds in a trace-table entry. */
module TraceDecode {
  import opened Packing
  import opened TraceTable

  /** A table word, zero outside the table. */
  function At(table: seq<nat>, i: int): nat { if 0 <= i < |table| then table[i] else 0 }

  /** The `k`th byte from a word on, the highest byte of a word first. */
  function ByteAt(table: seq<nat>, base: int, k: nat): nat { Digit(At(table, base + k / 4), 256, 3 - k % 4) }

  function FrameWords(info: Callinfo): nat { info.frameSize / 4 }

  /** The words of stack bits, as the collector computes them from the frame size:
      a quarter of it in bytes, rounded down and then up to whole words. */
  function StackWordsRead(n: nat): nat { (n / 4 + 3) / 4 }

  /** The two sides agree on how many words that is for just these frames. */
  lemma StackWordsExact(n: nat)
    ensures StackWordsRead(n) == WordsFor(n, 16) <==> n > 0 && (n % 16 == 0 || n % 16 >= 4)
  {
    var q, r := n / 16, n % 16;
    assert n == 16 * q + r;
    assert n / 4 == 4 * q + r / 4;
    assert (n + 15) / 16 == if r == 0 then q else q + 1;
  }

  /** The collector finds the return address exactly when its slot is one of the
      first thirty-one; the mark for larger offsets is not the one it looks for. */
  lemma RetAddExact(info: Callinfo)
    requires Encodable(info)
    ensures var size1 := EntryOf(info)[2];
            && size1 / HALF % 32 != 31
            && (size1 / HALF % 32 == info.retAddPos / 4 <==> info.retAddPos < 124)
  {
    hide ByteData, CallData;
    assert EntryOf(info)[2] == Header(info)[2];
  }

  /** A frame of one word: the compiler lays out a word of stack bits, and the
      collector reads none. */
  lemma OneWordFrame()
    ensures WordsFor(1, 16) == 1 && StackWordsRead(1) == 0
  {
    StackWordsExact(1);
  }

  /** The sizes an entry says it has are those it has. */
  lemma SizesRead(info: Callinfo)
    requires Encodable(info)
    ensures EntryOf(info)[1] % HALF == EntrySize(info) == |EntryOf(info)|
    ensures EntryOf(info)[1] / HALF % HALF == FrameWords(info)
    ensures EntryOf(info)[2] % HALF == |ByteData(info)|
  {
    hide ByteData, CallData;
    assert EntryOf(info)[2] == Header(info)[2];
  }

  // ---- sections --------------------------------------------------------------------

  lemma MaskWords(info: Callinfo)
    ensures |MaskBits(info, false)| == 1 && |MaskBits(info, true)| == 1
    ensures forall k | 0 <= k < 32 ::
              && Digit(MaskBits(info, false)[0], 2, k) == RegBits(k, RegTraces(info)[k]).0
              && Digit(MaskBits(info, true)[0], 2, k) == RegBits(k, RegTraces(info)[k]).1
  {
    MaskWord(RegMask(RegTraces(info), false));
    MaskWord(RegMask(RegTraces(info), true));
  }

  lemma {:induction false} MaskWord(mask: seq<nat>)
    requires |mask| == 32 && AllBelow(mask, 2)
    ensures var ws := Layout(0, 0, mask, 2, 32); |ws| == 1 && forall k | 0 <= k < 32 :: Digit(ws[0], 2, k) == mask[k]
  {
    hide Digit, Layout;
    LayoutStart(mask, 2, 32);
    var ws := Layout(0, 0, mask, 2, 32);
    forall k | 0 <= k < 32
      ensures Digit(ws[0], 2, k) == mask[k]
    {
      assert Field(ws, 2, 32, k) == mask[k];
    }
  }

  lemma {:induction false} LayoutStart(ds: seq<nat>, base: nat, per: nat)
    requires base > 0 && per > 0 && AllBelow(ds, base)
    ensures Holds(Layout(0, 0, ds, base, per), ds, base, per)
  {
    hide Holds, Layout;
    PackNil(base);
    assert [] + ds == ds;
    LayoutGives([], ds, base, per);
  }

  lemma BotWords(info: Callinfo)
    ensures Holds(StackBits(info), Bots(StackTraces(info)), 4, 16)
    ensures |StackBits(info)| == WordsFor(FrameWords(info), 16)
  {
    hide Layout, Field;
    LayoutStart(Bots(StackTraces(info)), 4, 16);
  }

  lemma {:induction false} ByteWordsRead(bs: seq<nat>, k: nat)
    requires AllBelow(bs, 256) && k < |bs|
    ensures k / 4 < |ByteWords(bs)| && Digit(ByteWords(bs)[k / 4], 256, 3 - k % 4) == bs[k]
    decreases |bs|
  {
    hide Digit;
    var b := bs + [0, 0, 0];
    var group := [b[3], b[2], b[1], b[0]];
    assert ByteWords(bs)[0] == Pack(group, 256);
    if k < 4 {
      assert AllBelow(group, 256);
      DigitOfPack(group, 256, 3 - k);
    } else {
      ByteWordsRead(bs[4..], k - 4);
      assert ByteWords(bs) == [Pack(group, 256)] + ByteWords(bs[4..]);
      assert (k - 4) / 4 == k / 4 - 1 && (k - 4) % 4 == k % 4;
    }
  }

  /** Where an entry's parts lie once it is in the table. */
  ghost predicate EntryAt(table: seq<nat>, p: nat, info: Callinfo) {
    Encodable(info) && p + |EntryOf(info)| <= |table| && table[p..p + |EntryOf(info)|] == EntryOf(info)
  }

  /** Frames and return addresses on which the two sides agree, and registers and
      paths that decode. */
  predicate Decodable(info: Callinfo) {
    && Encodable(info) && info.retAddPos < 124
    && FrameWords(info) > 0 && (FrameWords(info) % 16 == 0 || FrameWords(info) % 16 >= 4)
    && (forall k | 0 <= k < |StackTraces(info)| :: Readable(StackTraces(info)[k]))
    && (forall k | 0 <= k < 32 :: Readable(RegTraces(info)[k]))
  }

  predicate Readable(tr: Trace) {
    && (tr.Callee? ==> tr.reg < 32)
    && (tr.Special? ==> |tr.indices| <= 5 || (|tr.indices| + 1) % 6 == 0)
  }

  function BotBase(p: nat): nat { p + 5 }

  function ByteBase(p: nat, info: Callinfo): nat { BotBase(p) + WordsFor(FrameWords(info), 16) }

  function WordBase(p: nat, info: Callinfo): nat { ByteBase(p, info) + |ByteData(info)| }

  function Specials(info: Callinfo): seq<nat> { AllWords(StackTraces(info)) + AllWords(RegTraces(info)) }

  /** A word of an entry in the table. */
  lemma EntryWord(table: seq<nat>, p: nat, info: Callinfo, k: nat)
    requires EntryAt(table, p, info) && k < |EntryOf(info)|
    ensures At(table, p + k) == EntryOf(info)[k]
  {
    hide EntryOf, Encodable;
    assert table[p..p + |EntryOf(info)|][k] == table[p + k];
  }

  /** The sections in order. */
  lemma Sections(info: Callinfo)
    ensures |MaskBits(info, false)| == 1 && |MaskBits(info, true)| == 1
    ensures var e, bots := EntryOf(info), StackBits(info);
            && |e| == 5 + |bots| + |ByteData(info)| + |Specials(info)|
            && e[3] == MaskBits(info, false)[0] && e[4] == MaskBits(info, true)[0]
            && (forall k | 0 <= k < |bots| :: e[5 + k] == bots[k])
            && (forall k | 0 <= k < |ByteData(info)| :: e[5 + |bots| + k] == ByteData(info)[k])
            && (forall k | 0 <= k < |Specials(info)| :: e[5 + |bots| + |ByteData(info)| + k] == Specials(info)[k])
  {
    hide MaskBits, StackBits, ByteData, AllWords, Header, Digit, RegBits;
    MaskWords(info);
    var a, b, bots, bytes := MaskBits(info, false), MaskBits(info, true), StackBits(info), ByteData(info);
    var w1, w2 := AllWords(StackTraces(info)), AllWords(RegTraces(info));
    Flatten(Header(info), a, b, bots, bytes, w1, w2);
    Parts(Header(info), a, b, bots, bytes, w1 + w2);
  }

  lemma Flatten(h: seq<nat>, a: seq<nat>, b: seq<nat>, c: seq<nat>, d: seq<nat>, e: seq<nat>, f: seq<nat>)
    ensures h + (a + b + c + d + e + f) == h + a + b + c + d + (e + f)
  {
    assert a + b + c + d + e + f == a + (b + c + d + e + f);
  }

  lemma Parts(h: seq<nat>, a: seq<nat>, b: seq<nat>, c: seq<nat>, d: seq<nat>, e: seq<nat>)
    requires |h| == 3 && |a| == 1 && |b| == 1
    ensures var all := h + a + b + c + d + e;
            && all[3] == a[0] && all[4] == b[0]
            && (forall k | 0 <= k < |c| :: all[5 + k] == c[k])
            && (forall k | 0 <= k < |d| :: all[5 + |c| + k] == d[k])
            && (forall k | 0 <= k < |e| :: all[5 + |c| + |d| + k] == e[k])
  {}

  /** The format in numbers: label and sizes, two bits in two masks for each register, and
      two bits for each slot. */
  lemma FormatIs(info: Callinfo)
    requires Encodable(info)
    ensures var e := EntryOf(info);
            && |e| >= 5 + WordsFor(info.frameSize / 4, 16) && e[0] == info.callLabel
            && e[1] == |e| + 65536 * (info.frameSize / 4)
            && e[2] / 65536 == (if info.retAddPos < 124 then info.retAddPos / 4 else 15)
            && (forall n | 0 <= n < 32 :: (Digit(e[3], 2, n), Digit(e[4], 2, n)) ==
                  match Lookup(info.regTrace, n)
                  case No => (0, 0)
                  case Yes => (1, 0)
                  case Callee(r) => (1, if r == n then 1 else 0)
                  case Special(_, _) => (0, 1))
            && (forall k | 0 <= k < info.frameSize / 4 ::
                  Digit(e[5 + k / 16], 4, k % 16) ==
                  match Lookup(info.stackTrace, 4 * k)
                  case No => 0
                  case Yes => 1
                  case Callee(_) => 2
                  case Special(_, _) => 3)
  {
    hide Digit, StackBits, MaskBits, ByteData, Specials, Lookup, AllWords;
    Sections(info);
    MaskWords(info);
    BotWords(info);
    SizesRead(info);
    assert EntryOf(info)[1] == Header(info)[1] && EntryOf(info)[2] == Header(info)[2];
    forall k | 0 <= k < info.frameSize / 4
      ensures Digit(EntryOf(info)[5 + k / 16], 4, k % 16) == BotOf(Lookup(info.stackTrace, 4 * k))
    {
      assert EntryOf(info)[5 + k / 16] == StackBits(info)[k / 16];
      assert Field(StackBits(info), 4, 16, k) == Bots(StackTraces(info))[k];
    }
  }

  lemma SizesAt(table: seq<nat>, p: nat, info: Callinfo)
    requires EntryAt(table, p, info)
    ensures At(table, p) == info.callLabel
    ensures At(table, p + 1) % HALF == EntrySize(info) && At(table, p + 1) / HALF % HALF == FrameWords(info)
    ensures At(table, p + 2) % HALF == |ByteData(info)| && At(table, p + 2) / HALF % 32 == RetAddOffset(info)
  {
    hide EntryAt, ByteData, CallData, At;
    EntryFits(table, p, info);
    SizesRead(info);
    RetAddRead(info);
    EntryWord(table, p, info, 0);
    EntryWord(table, p, info, 1);
    EntryWord(table, p, info, 2);
  }

  lemma EntryFits(table: seq<nat>, p: nat, info: Callinfo)
    requires EntryAt(table, p, info)
    ensures Encodable(info)
  {}

  lemma RetAddRead(info: Callinfo)
    requires Encodable(info)
    ensures EntryOf(info)[2] / HALF % 32 == RetAddOffset(info)
  {
    hide ByteData, CallData;
    assert EntryOf(info)[2] == Header(info)[2];
  }

  lemma MasksAt(table: seq<nat>, p: nat, info: Callinfo, k: nat)
    requires EntryAt(table, p, info) && k < 32
    ensures Digit(At(table, p + 3), 2, k) == RegBits(k, RegTraces(info)[k]).0
    ensures Digit(At(table, p + 4), 2, k) == RegBits(k, RegTraces(info)[k]).1
  {
    hide EntryAt, EntryOf, At, Digit, MaskBits, ByteData, Specials, StackBits;
    Sections(info);
    MaskWords(info);
    EntryWord(table, p, info, 3);
    EntryWord(table, p, info, 4);
  }

  /** A slot's bits; slots past the frame, in its last word, read as untraced. */
  lemma BotAt(table: seq<nat>, p: nat, info: Callinfo, k: nat)
    requires EntryAt(table, p, info) && k / 16 < WordsFor(FrameWords(info), 16)
    ensures Digit(At(table, BotBase(p) + k / 16), 4, k % 16) == BotOf(TraceAt(StackTraces(info), k))
  {
    hide EntryAt, EntryOf, At, Digit, ByteData, Specials, WordsFor, StackBits;
    Sections(info);
    var ts := StackTraces(info);
    BotWords(info);
    EntryWord(table, p, info, 5 + k / 16);
    assert Field(StackBits(info), 4, 16, k) == if k < |ts| then BotOf(ts[k]) else 0;
  }

  /** The bytes of callee-save slots, in order. */
  lemma ByteIs(table: seq<nat>, p: nat, info: Callinfo, k: nat)
    requires EntryAt(table, p, info) && Decodable(info) && k < |AllBytes(StackTraces(info))|
    ensures ByteAt(table, ByteBase(p, info), k) == AllBytes(StackTraces(info))[k]
  {
    hide EntryAt, EntryOf, At, Digit, StackBits, Specials, WordsFor, BytesUpTo, ByteWords, Decodable;
    Sections(info);
    BotWords(info);
    var bs := AllBytes(StackTraces(info));
    NearReturn(info);
    assert [] + bs == bs;
    assert ByteData(info) == ByteWords(bs);
    BytesSmall(StackTraces(info), info, |StackTraces(info)|);
    ByteWordsRead(bs, k);
    EntryWord(table, p, info, 5 + WordsFor(FrameWords(info), 16) + k / 4);
  }

  lemma NearReturn(info: Callinfo)
    requires Decodable(info)
    ensures info.retAddPos < 124
  {}

  lemma {:induction false} BytesSmall(ts: seq<Trace>, info: Callinfo, k: nat)
    requires Decodable(info) && ts == StackTraces(info) && k <= |ts|
    ensures AllBelow(BytesUpTo(ts, k), 256)
  {
    hide StackTraces;
    if k > 0 {
      BytesSmall(ts, info, k - 1);
      assert Readable(ts[k - 1]);
    }
  }

  /** The words of special traces, in order. */
  lemma WordIs(table: seq<nat>, p: nat, info: Callinfo, k: nat)
    requires EntryAt(table, p, info) && k < |Specials(info)|
    ensures At(table, WordBase(p, info) + k) == Specials(info)[k]
  {
    hide EntryAt, EntryOf, At, StackBits, ByteData, Specials, WordsFor;
    Sections(info);
    BotWords(info);
    EntryWord(table, p, info, 5 + WordsFor(FrameWords(info), 16) + |ByteData(info)| + k);
  }

  // ---- the table -----------------------------------------------------------------------

  /** Entries one after the other from a word on, and a zero word at the end. Call
      sites are labels, so their addresses are not zero. */
  ghost predicate TableFrom(table: seq<nat>, p: nat, infos: seq<Callinfo>)
    decreases infos
  {
    if infos == [] then p < |table| && table[p] == 0
    else
      && EntryAt(table, p, infos[0]) && infos[0].callLabel != 0
      && TableFrom(table, p + EntrySize(infos[0]), infos[1..])
  }

  /** Where the entries start. */
  ghost function Starts(p: nat, infos: seq<Callinfo>): (r: seq<nat>)
    ensures |r| == |infos|
    decreases infos
  {
    if infos == [] then [] else [p] + Starts(p + EntrySize(infos[0]), infos[1..])
  }

  lemma {:induction false} StartsAreEntries(table: seq<nat>, p: nat, infos: seq<Callinfo>, k: nat)
    requires TableFrom(table, p, infos) && k < |infos|
    ensures EntryAt(table, Starts(p, infos)[k], infos[k])
    decreases infos
  {
    hide EntryAt, EntrySize;
    if k > 0 {
      StartsAreEntries(table, p + EntrySize(infos[0]), infos[1..], k - 1);
    }
  }

  /** Goes through a table by the sizes its entries give. It comes to every entry and
      stops after the last. */
  method WalkTable(table: seq<nat>, start: nat, ghost infos: seq<Callinfo>) returns (entries: seq<nat>)
    requires TableFrom(table, start, infos)
    ensures entries == Starts(start, infos)
    ensures forall k | 0 <= k < |entries| :: EntryAt(table, entries[k], infos[k])
  {
    hide EntryAt, EntrySize, At;
    entries := [];
    var cur: nat := start;
    ghost var rest := infos;
    WordHere(table, cur, rest);
    while At(table, cur) != 0
      invariant TableFrom(table, cur, rest) && entries + Starts(cur, rest) == Starts(start, infos)
      invariant At(table, cur) != 0 <==> rest != []
      decreases rest
    {
      SizesAt(table, cur, rest[0]);
      entries := entries + [cur];
      cur := cur + At(table, cur + 1) % HALF;
      rest := rest[1..];
      WordHere(table, cur, rest);
    }
    forall k | 0 <= k < |entries|
      ensures EntryAt(table, entries[k], infos[k])
    {
      StartsAreEntries(table, start, infos, k);
    }
  }

  lemma {:induction false} WordHere(table: seq<nat>, p: nat, infos: seq<Callinfo>)
    requires TableFrom(table, p, infos)
    ensures At(table, p) != 0 <==> infos != []
  {
    hide EntryAt;
    if infos != [] {
      SizesAt(table, p, infos[0]);
    }
  }
}

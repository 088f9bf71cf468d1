/** The collector's side of the trace tables: finding the roots in a stack and the
    registers that hold pointers, frame by frame. */
module StackScan {
  import opened Packing
  import opened TraceTable
  import opened TraceDecode

  /** Memory: `load(p, i)` is the word `i` words past address `p`; `skip` tells values
      that are not heap pointers; a global's type is `globalOffset` words into it. */
  datatype Memory = Memory(load: (int, int) -> int, skip: int -> bool, globalOffset: int)

  // ---- what the tables mean ----------------------------------------------------------

  /** Following the first `k` indices of a path. */
  function Project(m: Memory, base: int, path: seq<nat>, k: nat): int
    requires k <= |path|
  {
    if k == 0 then base else m.load(Project(m, base, path, k - 1), path[k - 1])
  }

  function BaseValue(m: Memory, sp: int, base: Base): int {
    match base
    case OnFrame(pos) => m.load(sp, pos / 4)
    case AtLabel(address) => address
    case AtGlobal(address) => m.load(address, m.globalOffset)
  }

  /** Whether a location is to be traced, given the registers that held pointers in
      the caller. Types up to 3 are of values that are not pointers. */
  predicate Traced(m: Memory, sp: int, regs: set<nat>, tr: Trace) {
    match tr
    case No => false
    case Yes => true
    case Callee(r) => r in regs
    case Special(base, indices) => Project(m, BaseValue(m, sp, base), indices, |indices|) > 3
  }

  /** A register with a callee trace for another register counts as a pointer. */
  predicate RegTraced(m: Memory, sp: int, regs: set<nat>, n: nat, tr: Trace) {
    if tr.Callee? then tr.reg != n || n in regs else Traced(m, sp, regs, tr)
  }

  function RegsAfter(m: Memory, sp: int, regs: set<nat>, info: Callinfo): set<nat> {
    set n | 0 <= n < 32 && RegTraced(m, sp, regs, n, RegTraces(info)[n])
  }

  /** The root locations among the first `k` slots of a frame. */
  function FrameRoots(m: Memory, sp: int, regs: set<nat>, ts: seq<Trace>, k: nat): seq<int> {
    if k == 0 then []
    else
      FrameRoots(m, sp, regs, ts, k - 1)
      + if Traced(m, sp, regs, TraceAt(ts, k - 1)) && !m.skip(m.load(sp, k - 1)) then [sp + 4 * (k - 1)] else []
  }

  /** Call sites by table address. */
  type Infos = map<nat, Callinfo>

  /** A stack from its newest frame up: the call sites of its frames, found through
      return addresses, which lie two instructions past the addresses saved. */
  ghost predicate StackIs(m: Memory, find: map<int, nat>, infos: Infos, sp: int, ra: int, fs: seq<nat>, top: int)
    decreases fs
  {
    if fs == [] then sp == top
    else
      && ra + 8 in find && find[ra + 8] == fs[0] && fs[0] in infos && Decodable(infos[fs[0]])
      && StackIs(m, find, infos, sp + 4 * FrameWords(infos[fs[0]]), m.load(sp, infos[fs[0]].retAddPos / 4), fs[1..],
                 top)
  }

  ghost predicate AllIn(infos: Infos, fs: seq<nat>) { forall k | 0 <= k < |fs| :: fs[k] in infos }

  /** The registers that hold pointers once the frames have been entered, and the
      roots in them, oldest frame first. */
  ghost function StackRegs(m: Memory, infos: Infos, sp: int, fs: seq<nat>): set<nat>
    requires AllIn(infos, fs)
    decreases fs
  {
    if fs == [] then {}
    else RegsAfter(m, sp, StackRegs(m, infos, sp + 4 * FrameWords(infos[fs[0]]), fs[1..]), infos[fs[0]])
  }

  ghost function StackRoots(m: Memory, infos: Infos, sp: int, fs: seq<nat>): seq<int>
    requires AllIn(infos, fs)
    decreases fs
  {
    if fs == [] then []
    else
      var above := sp + 4 * FrameWords(infos[fs[0]]);
      StackRoots(m, infos, above, fs[1..])
      + FrameRoots(m, sp, StackRegs(m, infos, above, fs[1..]), StackTraces(infos[fs[0]]), FrameWords(infos[fs[0]]))
  }

  // ---- reading an entry ---------------------------------------------------------------

  /** The words of the table from an index on start with these. */
  ghost predicate WordsAt(table: seq<nat>, i: int, ws: seq<nat>) {
    forall k | 0 <= k < |ws| :: At(table, i + k) == ws[k]
  }

  /** The slots with a trace among the first `k`. */
  function Slots(ts: seq<Trace>, k: nat): seq<nat> {
    if k == 0 then [] else Slots(ts, k - 1) + if TraceAt(ts, k - 1).No? then [] else [k - 1]
  }

  lemma {:induction false} SlotsGrow(ts: seq<Trace>, i: nat, n: nat)
    requires i <= n
    ensures |Slots(ts, i)| <= |Slots(ts, n)|
  {
    if i < n {
      SlotsGrow(ts, i, n - 1);
    }
  }

  const CACHE := 10

  class Cursor {
    const table: seq<nat>
    var callinfo: int
    var entrySize: nat
    var frameSize: nat
    var raQuadOffset: int
    var byteOffset: nat
    var wordOffset: nat
    var yesBits: set<nat>
    var calleeMask: set<nat>
    var specialBits: set<nat>
    var byteData: nat
    var wordData: nat
    var slotCount: int
    var slot: seq<nat>
    var trace: seq<nat>

    constructor (table: seq<nat>)
      ensures this.table == table && callinfo == -1
    {
      this.table := table;
      callinfo, entrySize, frameSize, raQuadOffset, byteOffset, wordOffset := -1, 0, 0, 0, 0, 0;
      yesBits, calleeMask, specialBits, byteData, wordData := {}, {}, {}, 0, 0;
      slotCount, slot, trace := -1, [], [];
    }

    /** The cursor holds what the entry says. */
    ghost predicate Decoded(info: Callinfo)
      reads `callinfo, `entrySize, `frameSize, `raQuadOffset, `yesBits, `calleeMask, `specialBits, `byteData, `wordData
    {
      && callinfo >= 0 && EntryAt(table, callinfo, info) && Decodable(info)
      && entrySize == EntrySize(info) && frameSize == FrameWords(info) && raQuadOffset == info.retAddPos / 4
      && byteData == ByteBase(callinfo, info) && wordData == WordBase(callinfo, info)
      && yesBits == (set n | 0 <= n < 32 && RegBits(n, RegTraces(info)[n]) == (1, 0))
      && calleeMask == (set n | 0 <= n < 32 && RegBits(n, RegTraces(info)[n]) == (1, 1))
      && specialBits == (set n | 0 <= n < 32 && RegBits(n, RegTraces(info)[n]) == (0, 1))
    }

    /** The cache is unused, or lists the slots with a trace. */
    ghost predicate Cached(info: Callinfo)
      reads `slotCount, `slot, `trace
    {
      slotCount >= 0 ==>
        && slot == Slots(StackTraces(info), FrameWords(info)) && slotCount == |slot| == |trace|
        && forall k | 0 <= k < |slot| :: trace[k] == BotOf(TraceAt(StackTraces(info), slot[k]))
    }

    method LookupSpecialByte() returns (b: nat)
      modifies `byteOffset
      ensures b == ByteAt(table, byteData, old(byteOffset)) && byteOffset == old(byteOffset) + 1
    {
      b := ByteAt(table, byteData, byteOffset);
      byteOffset := byteOffset + 1;
    }

    method LookupSpecialWord() returns (w: nat)
      modifies `wordOffset
      ensures w == At(table, wordData + old(wordOffset)) && wordOffset == old(wordOffset) + 1
    {
      w := At(table, wordData + wordOffset);
      wordOffset := wordOffset + 1;
    }

    /** The offset of the return address; the largest value that fits stands for one
        kept in the byte section. */
    method ReturnOffset(size1: nat) returns (offset: nat)
      modifies `byteOffset
      ensures if size1 / HALF % 32 == 31 then offset == ByteAt(table, byteData, old(byteOffset))
              else offset == size1 / HALF % 32 && byteOffset == old(byteOffset)
    {
      offset := size1 / HALF % 32;
      if offset == 31 {
        offset := LookupSpecialByte();
      }
    }

    /** Reads the sizes of an entry, and where its parts lie. */
    method DecodeSizes(p: nat, ghost info: Callinfo)
      requires EntryAt(table, p, info) && Decodable(info) && byteOffset == 0
      modifies this
      ensures callinfo == p && byteOffset == 0 && wordOffset == old(wordOffset) && slotCount == -1
      ensures entrySize == EntrySize(info) && frameSize == FrameWords(info) && raQuadOffset == info.retAddPos / 4
      ensures byteData == ByteBase(p, info) && wordData == WordBase(p, info)
    {
      hide EntryAt, Decodable, WordsFor, ByteData, EntrySize, At, FrameWords, RetAddOffset, StackWordsRead;
      SizesAt(table, p, info);
      NearReturn(info);
      RetAddExactAt(info);
      FrameAgrees(info);
      var size0, size1 := At(table, p + 1), At(table, p + 2);
      callinfo := p;
      frameSize := size0 / HALF % HALF;
      entrySize := size0 % HALF;
      raQuadOffset := ReturnOffset(size1);
      slotCount := -1;
      byteData := p + 5 + StackWordsRead(frameSize);
      wordData := byteData + size1 % HALF;
    }

    /** Reads the register masks: the bits of two words, combined. */
    method DecodeMasks(p: nat, ghost info: Callinfo)
      requires EntryAt(table, p, info)
      modifies `yesBits, `calleeMask, `specialBits
      ensures yesBits == (set n | 0 <= n < 32 && RegBits(n, RegTraces(info)[n]) == (1, 0))
      ensures calleeMask == (set n | 0 <= n < 32 && RegBits(n, RegTraces(info)[n]) == (1, 1))
      ensures specialBits == (set n | 0 <= n < 32 && RegBits(n, RegTraces(info)[n]) == (0, 1))
    {
      hide EntryAt, RegTraces, RegBits, At, Digit;
      var ra, rb := At(table, p + 3), At(table, p + 4);
      yesBits := set n | 0 <= n < 32 && Digit(ra, 2, n) == 1 && Digit(rb, 2, n) == 0;
      calleeMask := set n | 0 <= n < 32 && Digit(ra, 2, n) == 1 && Digit(rb, 2, n) == 1;
      specialBits := set n | 0 <= n < 32 && Digit(ra, 2, n) == 0 && Digit(rb, 2, n) == 1;
      forall n | 0 <= n < 32
        ensures Digit(ra, 2, n) == RegBits(n, RegTraces(info)[n]).0
        ensures Digit(rb, 2, n) == RegBits(n, RegTraces(info)[n]).1
      {
        MasksAt(table, p, info, n);
      }
    }

    /** Turns the cursor to an entry, decoding it unless it is the last one used. */
    method GetCursor(p: nat, ghost info: Callinfo)
      requires EntryAt(table, p, info) && Decodable(info)
      requires callinfo == p ==> Decoded(info) && Cached(info)
      modifies this
      ensures callinfo == p && Decoded(info) && Cached(info) && byteOffset == 0 && wordOffset == 0
      ensures slotCount == if old(callinfo) == p then old(slotCount) else -1
    {
      hide EntryAt, Decodable, ByteBase, WordBase, EntrySize, FrameWords, Slots, StackTraces, RegTraces, RegBits;
      byteOffset, wordOffset := 0, 0;
      if callinfo != p {
        DecodeSizes(p, info);
        DecodeMasks(p, info);
      }
    }

    /** Whether the slots with a trace are listed in the cache. An entry is cached when
        it is used for the third time, unless it has too many. */
    method CacheCursor(ghost info: Callinfo) returns (cached: bool)
      requires Decoded(info) && Cached(info)
      modifies `slotCount, `slot, `trace
      ensures Decoded(info) && Cached(info) && (cached <==> slotCount >= 0)
      ensures var n := |Slots(StackTraces(info), FrameWords(info))|;
              slotCount == if old(slotCount) >= 0 then old(slotCount)
                           else if old(slotCount) == -2 then if n < CACHE then n else -4
                           else old(slotCount) - 1
    {
      hide EntryAt, Decodable, WordsFor, ByteData, EntrySize, StackTraces, RegTraces, RegBits, BotOf;
      if slotCount >= 0 {
        return true;
      }
      slotCount := slotCount - 1;
      if slotCount != -3 {
        return false;
      }
      slotCount, slot, trace := 0, [], [];
      ghost var ts := StackTraces(info);
      for i := 0 to frameSize
        invariant Decoded(info)
        invariant slot == Slots(ts, i) && slotCount == |slot| == |trace| < CACHE
        invariant forall k | 0 <= k < |slot| :: trace[k] == BotOf(TraceAt(ts, slot[k]))
      {
        BotInFrame(info, i);
        BotAt(table, callinfo, info, i);
        BotNo(TraceAt(ts, i));
        var word := At(table, BotBase(callinfo) + i / 16);
        var bot := Digit(word, 4, i % 16);
        if bot != 0 {
          slot, trace := slot + [i], trace + [bot];
          slotCount := slotCount + 1;
          if slotCount >= CACHE {
            SlotsGrow(ts, i + 1, frameSize);
            slotCount := -4;
            return false;
          }
        }
      }
      return true;
    }

    /** Follows the indices of one word, lowest first, until a zero. */
    method PathProjectStep(m: Memory, base: int, indices: nat, ghost start: int, ghost path: seq<nat>, ghost k: nat)
      returns (r: int, stop: bool)
      requires k <= |path| && base == Project(m, start, path, k)
      requires forall i | 0 <= i < 6 && k + i <= |path| ::
                 Digit(indices, 32, i) == if k + i < |path| then path[k + i] + 1 else 0
      ensures stop <==> |path| < k + 6
      ensures r == Project(m, start, path, if stop then |path| else k + 6)
    {
      var rest: int := indices;
      r := base;
      for i := 0 to 6
        invariant k + i <= |path| && rest == Shift(indices, 32, i) && r == Project(m, start, path, k + i)
      {
        ShiftNext(indices, 32, i);
        assert rest % 32 == Digit(indices, 32, i);
        var index := rest % 32;
        if index == 0 {
          return r, true;
        }
        rest := rest / 32;
        r := m.load(r, index - 1);
      }
      return r, false;
    }

    /** Follows a path from the words that encode it. */
    method PathProject(m: Memory, base: int, first: nat, ghost path: seq<nat>) returns (r: int)
      requires (forall a | a in path :: a <= INDEX_MAX) && ReadBack(path) == path
      requires IsPathWord(first, IndexWords(path), 0)
      requires WordsAt(table, wordData + wordOffset, IndexWords(path)[1..])
      modifies `wordOffset
      ensures r == Project(m, base, path, |path|) && wordOffset == old(wordOffset) + |IndexWords(path)| - 1
    {
      hide IndexWords, Field, Digit, ReadBack, Project, IsPathWord;
      PathFields(path);
      r := base;
      ProjectNone(m, base, path);
      var indices := first;
      ghost var j := 0;
      while true
        invariant 6 * j <= |path| && r == Project(m, base, path, 6 * j)
        invariant wordOffset == old(wordOffset) + j
        invariant IsPathWord(indices, IndexWords(path), j)
        decreases |path| - 6 * j
      {
        PathDigits(indices, path, j);
        var stop;
        r, stop := PathProjectStep(m, r, indices, base, path, 6 * j);
        if stop {
          return r;
        }
        j := j + 1;
        NextPathWord(table, wordData + old(wordOffset), IndexWords(path), j);
        indices := LookupSpecialWord();
      }
    }

    /** The type of a special value, found from its base along its path. */
    method ShouldTraceSpecial(m: Memory, sp: int, ghost tr: Trace) returns (r: bool)
      requires tr.Special? && PathFits(tr) && Readable(tr) && WordsAt(table, wordData + wordOffset, WordsOf(tr))
      modifies `wordOffset
      ensures r == Traced(m, sp, {}, tr) && wordOffset == old(wordOffset) + |WordsOf(tr)|
    {
      hide IndexWords, Field, Digit, Project, At, WordsAt, IsPathWord;
      FirstSpecial(tr.base, tr.indices);
      SpecialWords(table, wordData + wordOffset, tr);
      var first := LookupSpecialWord();
      var data := LookupSpecialWord();
      var kind := first / TYPE_UNIT % 4;
      var base := BaseFrom(m, sp, kind, data);
      var t := PathProject(m, base, first, tr.indices);
      r := t > 3;
    }

    /** Whether a slot holds a pointer, from its two bits and its special data. */
    method ShouldTrace(m: Memory, sp: int, regs: set<nat>, bot: nat, ghost tr: Trace) returns (r: bool)
      requires bot == BotOf(tr) && PathFits(tr) && Readable(tr)
      requires tr.Callee? ==> ByteAt(table, byteData, byteOffset) == tr.reg
      requires WordsAt(table, wordData + wordOffset, WordsOf(tr))
      modifies `byteOffset, `wordOffset
      ensures r == Traced(m, sp, regs, tr)
      ensures byteOffset == old(byteOffset) + |BytesOf(tr)| && wordOffset == old(wordOffset) + |WordsOf(tr)|
    {
      hide PathFits, Readable, WordsAt, At, ByteAt, Project, IndexWords;
      if bot == 0 {
        r := false;
      } else if bot == 1 {
        r := true;
      } else if bot == 2 {
        var pos := LookupSpecialByte();
        r := pos in regs;
      } else {
        r := ShouldTraceSpecial(m, sp, tr);
      }
    }

    // ---- slots ---------------------------------------------------------------------

    /** The special data of the first `k` slots have been used. */
    ghost predicate AtSlot(info: Callinfo, k: nat)
      reads `byteOffset, `wordOffset
    {
      byteOffset == |BytesUpTo(StackTraces(info), k)| && wordOffset == |WordsUpTo(StackTraces(info), k)|
    }

    /** One slot: traced according to its bits. */
    method ScanSlot(m: Memory, sp: int, regs: set<nat>, k: nat, bot: nat, roots: seq<int>, ghost info: Callinfo)
      returns (r: seq<int>)
      requires Decoded(info) && AtSlot(info, k) && bot == BotOf(TraceAt(StackTraces(info), k))
      requires roots == FrameRoots(m, sp, regs, StackTraces(info), k)
      modifies `byteOffset, `wordOffset
      ensures AtSlot(info, k + 1) && r == FrameRoots(m, sp, regs, StackTraces(info), k + 1)
    {
      hide EntryAt, Decodable, ByteData, EntrySize, StackTraces, RegTraces, RegBits, BotOf, BytesOf, WordsOf, Traced,
           WordsAt,
           Specials, ByteBase, WordBase, WordsFor;
      ghost var tr := TraceAt(StackTraces(info), k);
      SlotData(table, callinfo, info, k);
      var traced := ShouldTrace(m, sp, regs, bot, tr);
      r := roots;
      if traced {
        var data := m.load(sp, k);
        if !m.skip(data) {
          r := r + [sp + 4 * k];
        }
      }
    }

    /** The walk over the cached slots. */
    method CachedWalk(m: Memory, sp: int, regs: set<nat>, ghost info: Callinfo) returns (roots: seq<int>)
      requires Decoded(info) && Cached(info) && slotCount >= 0 && AtSlot(info, 0)
      modifies `byteOffset, `wordOffset
      ensures AtSlot(info, FrameWords(info)) && roots == FrameRoots(m, sp, regs, StackTraces(info), FrameWords(info))
    {
      hide StackTraces, Slots, BotOf, Decoded, Traced, BytesUpTo, WordsUpTo, FrameRoots, AtSlot, Cached, GapEnd,
           GapStart, FrameWords;
      ghost var ts, n := StackTraces(info), FrameWords(info);
      roots := [];
      NoRoots(m, sp, regs, ts, n);
      CachedSlots(info);
      for i := 0 to slotCount
        invariant Decoded(info) && Cached(info) && AtSlot(info, GapStart(ts, n, i))
        invariant roots == FrameRoots(m, sp, regs, ts, GapStart(ts, n, i))
      {
        CachedSlots(info);
        SkipGap(m, sp, regs, info, i, roots);
        roots := ScanSlot(m, sp, regs, slot[i], trace[i], roots, info);
      }
      CachedSlots(info);
      SkipGap(m, sp, regs, info, slotCount, roots);
    }

    lemma CachedSlots(info: Callinfo)
      requires Cached(info) && slotCount >= 0
      ensures var ts, n := StackTraces(info), FrameWords(info);
              && slotCount == |slot| == |trace| == |Slots(ts, n)| && GapEnd(ts, n, slotCount) == n
              && forall i | 0 <= i < slotCount ::
                   slot[i] == GapEnd(ts, n, i) && slot[i] + 1 == GapStart(ts, n, i + 1)
                     && trace[i] == BotOf(TraceAt(ts, slot[i]))
    {}

    lemma {:induction false} SkipGap(m: Memory, sp: int, regs: set<nat>, info: Callinfo, i: nat, roots: seq<int>)
      requires i <= |Slots(StackTraces(info), FrameWords(info))|
      requires AtSlot(info, GapStart(StackTraces(info), FrameWords(info), i))
      requires roots == FrameRoots(m, sp, regs, StackTraces(info), GapStart(StackTraces(info), FrameWords(info), i))
      ensures AtSlot(info, GapEnd(StackTraces(info), FrameWords(info), i))
      ensures roots == FrameRoots(m, sp, regs, StackTraces(info), GapEnd(StackTraces(info), FrameWords(info), i))
    {
      hide StackTraces, BytesUpTo, WordsUpTo, FrameRoots, AtSlot, Slots, Traced;
      SlotGap(StackTraces(info), FrameWords(info), i);
      SkipTo(m, sp, regs, info, GapStart(StackTraces(info), FrameWords(info), i),
             GapEnd(StackTraces(info), FrameWords(info), i), roots);
    }

    /** Slots without a trace need no data. */
    lemma {:induction false} SkipTo(m: Memory, sp: int, regs: set<nat>, info: Callinfo, a: nat, b: nat, roots: seq<int>)
      requires AtSlot(info, a) && a <= b && forall k | a <= k < b :: TraceAt(StackTraces(info), k).No?
      requires roots == FrameRoots(m, sp, regs, StackTraces(info), a)
      ensures AtSlot(info, b) && roots == FrameRoots(m, sp, regs, StackTraces(info), b)
    {
      SkipNo(m, sp, regs, StackTraces(info), a, b);
    }

    /** The walk over all slots, sixteen to a word, four at a time where there is
        nothing to trace. */
    method ChunkWalk(m: Memory, sp: int, regs: set<nat>, ghost info: Callinfo) returns (roots: seq<int>)
      requires Decoded(info) && AtSlot(info, 0)
      modifies `byteOffset, `wordOffset
      ensures AtSlot(info, FrameWords(info)) && roots == FrameRoots(m, sp, regs, StackTraces(info), FrameWords(info))
    {
      hide StackTraces, BotOf, Traced, BytesUpTo, WordsUpTo, FrameRoots, AtSlot, FrameWords, WordsFor, EntryAt,
           Decodable, ByteBase, WordBase,
           RegTraces, RegBits, EntrySize;
      ghost var ts := StackTraces(info);
      roots := [];
      var numChunks := (frameSize + 15) / 16;
      ChunkCount(info);
      NoRoots(m, sp, regs, ts, 0);
      hide Decoded;
      for i := 0 to numChunks
        invariant Decoded(info) && AtSlot(info, 16 * i) && roots == FrameRoots(m, sp, regs, ts, 16 * i)
      {
        roots := WordWalk(m, sp, regs, i, roots, info);
      }
      Beyond(m, sp, regs, info, 16 * numChunks);
    }

    /** The slots past the frame that its last word covers are untraced. */
    lemma {:induction false} Beyond(m: Memory, sp: int, regs: set<nat>, info: Callinfo, k: nat)
      requires k >= FrameWords(info) && AtSlot(info, k)
      ensures AtSlot(info, FrameWords(info))
      ensures FrameRoots(m, sp, regs, StackTraces(info), k)
           == FrameRoots(m, sp, regs, StackTraces(info), FrameWords(info))
    {
      SkipNo(m, sp, regs, StackTraces(info), FrameWords(info), k);
    }

    method WordWalk(m: Memory, sp: int, regs: set<nat>, i: nat, before: seq<int>, ghost info: Callinfo)
      returns (roots: seq<int>)
      requires Decoded(info) && i < WordsFor(FrameWords(info), 16)
      requires AtSlot(info, 16 * i) && before == FrameRoots(m, sp, regs, StackTraces(info), 16 * i)
      modifies `byteOffset, `wordOffset
      ensures AtSlot(info, 16 * i + 16) && roots == FrameRoots(m, sp, regs, StackTraces(info), 16 * i + 16)
    {
      hide EntryAt, Decodable, ByteBase, WordBase, WordsFor, StackTraces, RegTraces, BytesUpTo, WordsUpTo, FrameRoots,
           AtSlot;
      roots := before;
      var word := At(table, BotBase(callinfo) + i);
      var rest: int := word;
      ChunkBits(table, callinfo, info, i);
      hide At;
      if word == 0 {
        NothingIn(info, word, i);
        SkipTo(m, sp, regs, info, 16 * i, 16 * i + 16, roots);
        return;
      }
      for j := 0 to 4
        invariant Decoded(info) && rest == Shift(word, 4, 4 * j)
        invariant AtSlot(info, 16 * i + 4 * j) && roots == FrameRoots(m, sp, regs, StackTraces(info), 16 * i + 4 * j)
      {
        FourDigits(word, 4 * j);
        if rest % 256 == 0 {
          FourNo(info, word, i, j);
          SkipTo(m, sp, regs, info, 16 * i + 4 * j, 16 * i + 4 * j + 4, roots);
          rest := rest / 256;
        } else {
          for k := 0 to 4
            invariant Decoded(info) && rest == Shift(word, 4, 4 * j + k)
            invariant AtSlot(info, 16 * i + 4 * j + k)
            invariant roots == FrameRoots(m, sp, regs, StackTraces(info), 16 * i + 4 * j + k)
          {
            var bot := rest % 4;
            assert bot == Digit(word, 4, 4 * j + k);
            roots := ScanSlot(m, sp, regs, 16 * i + 4 * j + k, bot, roots, info);
            ShiftNext(word, 4, 4 * j + k);
            rest := rest / 4;
          }
        }
      }
    }

    // ---- registers -----------------------------------------------------------------

    /** The special words of the first `q` registers have been used. */
    ghost predicate AtReg(info: Callinfo, q: nat)
      reads `wordOffset
    {
      wordOffset == |AllWords(StackTraces(info))| + |WordsUpTo(RegTraces(info), q)|
    }

    /** The registers that hold pointers after the frame has been entered, four bits of
        the special mask at a time. */
    method RegWalk(m: Memory, sp: int, regs: set<nat>, ghost info: Callinfo) returns (r: set<nat>)
      requires Decoded(info) && AtSlot(info, FrameWords(info))
      modifies `wordOffset
      ensures r == RegsAfter(m, sp, regs, info)
    {
      hide *;
      ghost var plain := yesBits + calleeMask * regs;
      RegsBegin(info);
      RegsStart(m, sp, info);
      r := yesBits + calleeMask * regs;
      assert r + {} == r;
      for i := 0 to 8
        invariant Decoded(info) && AtReg(info, 4 * i) && r == plain + SpecialRegs(m, sp, info, 4 * i)
      {
        if forall n | 4 * i <= n < 4 * i + 4 :: n !in specialBits {
          SkipRegs(m, sp, info, 4 * i, 4 * i + 4);
        } else {
          r := ScanFour(m, sp, i, r, plain, info);
        }
      }
      RegsTogether(m, sp, regs, info);
    }

    lemma RegsBegin(info: Callinfo)
      requires AtSlot(info, FrameWords(info))
      ensures AtReg(info, 0)
    {}

    method ScanFour(m: Memory, sp: int, i: nat, before: set<nat>, ghost plain: set<nat>, ghost info: Callinfo)
      returns (r: set<nat>)
      requires Decoded(info) && AtReg(info, 4 * i) && i < 8 && before == plain + SpecialRegs(m, sp, info, 4 * i)
      modifies `wordOffset
      ensures AtReg(info, 4 * i + 4) && r == plain + SpecialRegs(m, sp, info, 4 * i + 4)
    {
      hide Decoded, AtReg, SpecialRegs;
      r := before;
      for j := 0 to 4
        invariant Decoded(info) && AtReg(info, 4 * i + j) && r == plain + SpecialRegs(m, sp, info, 4 * i + j)
      {
        r := ScanReg(m, sp, 4 * i + j, r, plain, info);
      }
    }

    method ScanReg(m: Memory, sp: int, q: nat, before: set<nat>, ghost plain: set<nat>, ghost info: Callinfo)
      returns (r: set<nat>)
      requires Decoded(info) && AtReg(info, q) && q < 32 && before == plain + SpecialRegs(m, sp, info, q)
      modifies `wordOffset
      ensures AtReg(info, q + 1) && r == plain + SpecialRegs(m, sp, info, q + 1)
    {
      hide EntryAt, StackTraces, RegTraces, WordsOf, WordBase, ByteBase, Traced, SpecialRegs, Decodable, RegBits;
      r := before;
      SpecialMask(info);
      NextRegs(m, sp, info, q);
      if q in specialBits {
        RegData(table, callinfo, info, q);
        var traced := ShouldTraceSpecial(m, sp, RegTraces(info)[q]);
        if traced {
          r := r + {q};
        }
      } else {
        SkipRegs(m, sp, info, q, q + 1);
      }
    }

    lemma SpecialMask(info: Callinfo)
      requires Decoded(info)
      ensures forall n :: n in specialBits <==> 0 <= n < 32 && RegTraces(info)[n].Special?
    {
      hide EntryAt, Decodable, RegTraces;
    }

    lemma SkipRegs(m: Memory, sp: int, info: Callinfo, a: nat, b: nat)
      requires a <= b <= 32 && AtReg(info, a) && Decoded(info) && forall n | a <= n < b :: n !in specialBits
      ensures AtReg(info, b) && SpecialRegs(m, sp, info, a) == SpecialRegs(m, sp, info, b)
    {
      SpecialMask(info);
      hide Decoded;
      SkipPlain(m, sp, info, a, b);
    }

    lemma RegsTogether(m: Memory, sp: int, regs: set<nat>, info: Callinfo)
      requires Decoded(info)
      ensures yesBits + calleeMask * regs + SpecialRegs(m, sp, info, 32) == RegsAfter(m, sp, regs, info)
    {
      hide EntryAt, Decodable, RegTraces, Project;
    }

    // ---- frames and stacks -----------------------------------------------------------

    /** All entries are in the table, and the cursor's is decoded. */
    ghost predicate Ready(infos: Infos)
      reads `callinfo, `entrySize, `frameSize, `raQuadOffset, `yesBits, `calleeMask, `specialBits, `byteData, `wordData
      reads `slotCount, `slot, `trace
    {
      && (forall p | p in infos :: EntryAt(table, p, infos[p]) && Decodable(infos[p]))
      && (callinfo >= 0 && callinfo in infos ==> Decoded(infos[callinfo]) && Cached(infos[callinfo]))
    }

    /** The cursor is at the start of an entry. */
    ghost predicate Turned(p: nat, infos: Infos)
      reads this
    {
      Ready(infos) && p in infos && callinfo == p && byteOffset == 0 && wordOffset == 0
    }

    method Turn(p: nat, ghost infos: Infos)
      requires Ready(infos) && p in infos
      modifies this
      ensures Turned(p, infos) && frameSize == FrameWords(infos[p]) && raQuadOffset == infos[p].retAddPos / 4
    {
      hide EntryAt, Decodable, Cached, StackTraces, ByteBase, WordBase, RegBits, RegTraces, EntrySize;
      GetCursor(p, infos[p]);
    }

    /** One frame: its roots, and the registers that hold pointers after it, the same
        whether its slots come from the cache or not. */
    method ScanFrame(m: Memory, sp: int, regs: set<nat>, ghost p: nat, ghost infos: Infos)
      returns (roots: seq<int>, after: set<nat>)
      requires Turned(p, infos)
      modifies this
      ensures Ready(infos)
      ensures roots == FrameRoots(m, sp, regs, StackTraces(infos[p]), FrameWords(infos[p]))
      ensures after == RegsAfter(m, sp, regs, infos[p])
    {
      hide EntryAt, Decodable, Cached, FrameRoots, RegsAfter, StackTraces, FrameWords, Decoded, AtSlot;
      ghost var info := infos[p];
      StartOfFrame(info);
      var cached := CacheCursor(info);
      if cached {
        roots := CachedWalk(m, sp, regs, info);
      } else {
        roots := ChunkWalk(m, sp, regs, info);
      }
      after := RegWalk(m, sp, regs, info);
    }

    lemma StartOfFrame(info: Callinfo)
      requires byteOffset == 0 && wordOffset == 0
      ensures AtSlot(info, 0)
    {}

    /** Finds the call sites of a stack's frames, newest first. */
    method UpTrace(m: Memory, find: map<int, nat>, start: int, retAdd: int, top: int, ghost infos: Infos,
                   ghost fs: seq<nat>)
      returns (callinfoStack: seq<nat>)
      requires Ready(infos) && StackIs(m, find, infos, start, retAdd, fs, top)
      modifies this
      ensures Ready(infos) && callinfoStack == fs
    {
      hide Ready, Decodable;
      callinfoStack := [];
      var sp, ra := start, retAdd;
      ghost var rest := fs;
      StackUp(m, find, infos, sp, ra, rest, top);
      while sp < top
        invariant Ready(infos) && StackIs(m, find, infos, sp, ra, rest, top) && callinfoStack + rest == fs
        invariant sp < top <==> rest != []
        decreases rest
      {
        var p := find[ra + 8];
        Turn(p, infos);
        callinfoStack := callinfoStack + [p];
        ra := m.load(sp, raQuadOffset);
        sp := sp + 4 * frameSize;
        rest := rest[1..];
        StackUp(m, find, infos, sp, ra, rest, top);
      }
    }

    /** Scans the frames of a stack, oldest first, threading through them which
        registers hold pointers. */
    method DownTrace(m: Memory, callinfos: seq<nat>, top: int, ghost infos: Infos)
      returns (roots: seq<int>, regState: set<nat>)
      requires Ready(infos) && AllIn(infos, callinfos)
      modifies this
      ensures Ready(infos)
      ensures roots == StackRoots(m, infos, top - Height(infos, callinfos), callinfos)
      ensures regState == StackRegs(m, infos, top - Height(infos, callinfos), callinfos)
    {
      hide Ready, FrameRoots, RegsAfter, StackTraces, FrameWords;
      var callinfoStack := callinfos;
      var sp := top;
      roots, regState := [], {};
      assert callinfos[|callinfos|..] == [];
      while callinfoStack != []
        invariant Ready(infos) && callinfoStack <= callinfos && AllIn(infos, callinfos[|callinfoStack|..])
        invariant sp == top - Height(infos, callinfos[|callinfoStack|..])
        invariant roots == StackRoots(m, infos, sp, callinfos[|callinfoStack|..])
        invariant regState == StackRegs(m, infos, sp, callinfos[|callinfoStack|..])
        decreases callinfoStack
      {
        var p := callinfoStack[|callinfoStack| - 1];
        callinfoStack := callinfoStack[..|callinfoStack| - 1];
        ghost var fs := callinfos[|callinfoStack|..];
        assert fs[0] == p && fs[1..] == callinfos[|callinfoStack| + 1..];
        HeightOf(infos, fs);
        Turn(p, infos);
        sp := sp - 4 * frameSize;
        var found, after := ScanFrame(m, sp, regState, p, infos);
        roots, regState := roots + found, after;
      }
    }

    /** Scans a stack: finds its frames from the newest up, then their roots from the
        oldest down. */
    method ScanStack(m: Memory, find: map<int, nat>, start: int, retAdd: int, top: int, ghost infos: Infos,
                     ghost fs: seq<nat>)
      returns (roots: seq<int>, regState: set<nat>)
      requires Ready(infos) && StackIs(m, find, infos, start, retAdd, fs, top)
      modifies this
      ensures Ready(infos) && AllIn(infos, fs)
      ensures roots == StackRoots(m, infos, start, fs) && regState == StackRegs(m, infos, start, fs)
    {
      hide Ready, StackRoots, StackRegs, Height, StackIs, AllIn;
      StackHeight(m, find, infos, start, retAdd, fs, top);
      var callinfos := UpTrace(m, find, start, retAdd, top, infos, fs);
      roots, regState := DownTrace(m, callinfos, top, infos);
    }
  }

  /** A word with the fields of the `j`th word of a path. */
  ghost predicate IsPathWord(word: nat, ws: seq<nat>, j: nat) {
    forall i | 0 <= i < 6 :: Digit(word, 32, i) == FieldIn(ws, j, i)
  }

  function FieldIn(ws: seq<nat>, j: nat, i: nat): nat { Field(ws, 32, 6, 6 * j + i) }

  lemma PathDigits(word: nat, path: seq<nat>, j: nat)
    requires (forall a | a in path :: a <= INDEX_MAX) && ReadBack(path) == path
    requires 6 * j <= |path| && IsPathWord(word, IndexWords(path), j)
    ensures forall i | 0 <= i < 6 && 6 * j + i <= |path| ::
              Digit(word, 32, i) == if 6 * j + i < |path| then path[6 * j + i] + 1 else 0
  {
    hide IndexWords, Field, Digit, ReadBack;
    PathFields(path);
    forall i | 0 <= i < 6 && 6 * j + i <= |path|
      ensures Digit(word, 32, i) == if 6 * j + i < |path| then path[6 * j + i] + 1 else 0
    {
      assert Digit(word, 32, i) == FieldIn(IndexWords(path), j, i);
    }
  }

  lemma {:induction false} ProjectNone(m: Memory, base: int, path: seq<nat>)
    ensures Project(m, base, path, 0) == base
  {}

  lemma BotNo(tr: Trace)
    ensures BotOf(tr) == 0 <==> tr.No?
  {}

  /** Slots of the frame have bits among its words. */
  lemma BotInFrame(info: Callinfo, k: nat)
    requires k < FrameWords(info)
    ensures k / 16 < WordsFor(FrameWords(info), 16)
  {}

  lemma NextPathWord(table: seq<nat>, i: int, ws: seq<nat>, j: nat)
    requires ws != [] && WordsAt(table, i, ws[1..]) && 0 < j < |ws|
    ensures IsPathWord(At(table, i + j - 1), ws, j)
  {
    hide Digit;
    assert ws[1..][j - 1] == ws[j];
    assert At(table, i + (j - 1)) == ws[j];
    forall n | 0 <= n < 6
      ensures Digit(ws[j], 32, n) == FieldIn(ws, j, n)
    {
      assert (6 * j + n) / 6 == j && (6 * j + n) % 6 == n;
    }
  }

  function BaseFrom(m: Memory, sp: int, kind: nat, data: nat): int
    requires kind < 3
  {
    if kind == 0 then m.load(sp, data / 4) else if kind == 1 then data else m.load(data, m.globalOffset)
  }

  /** The words of a special trace, one by one. */
  lemma SpecialWords(table: seq<nat>, i: int, tr: Trace)
    requires tr.Special? && PathFits(tr) && Readable(tr) && WordsAt(table, i, WordsOf(tr))
    ensures At(table, i) == WordsOf(tr)[0] && At(table, i + 1) == TypeData(tr.base)
    ensures WordsAt(table, i + 2, IndexWords(tr.indices)[1..]) && IsPathWord(WordsOf(tr)[0], IndexWords(tr.indices), 0)
    ensures ReadBack(tr.indices) == tr.indices && |WordsOf(tr)| == |IndexWords(tr.indices)| + 1
    ensures forall m: Memory, sp {:trigger BaseFrom(m, sp, TypeInt(tr.base), TypeData(tr.base))}
                                 {:trigger BaseValue(m, sp, tr.base)} ::
              BaseFrom(m, sp, TypeInt(tr.base), TypeData(tr.base)) == BaseValue(m, sp, tr.base)
  {
    hide IndexWords, Field, Digit;
    var ws, all := IndexWords(tr.indices), WordsOf(tr);
    FirstSpecial(tr.base, tr.indices);
    assert At(table, i + 0) == all[0] && At(table, i + 1) == all[1];
    forall k | 0 <= k < |ws[1..]|
      ensures At(table, i + 2 + k) == ws[1..][k]
    {
      assert At(table, i + (2 + k)) == all[2 + k];
    }
    assert forall k | 0 <= k < 6 :: FieldIn(ws, 0, k) == Field(ws, 32, 6, k);
  }

  // ---- where slots find their special data ----------------------------------------------

  lemma {:induction false} BytesPrefix(ts: seq<Trace>, k: nat, n: nat)
    requires k <= n
    ensures BytesUpTo(ts, k) <= BytesUpTo(ts, n)
    decreases n
  {
    hide BytesOf, TraceAt;
    if k < n {
      BytesPrefix(ts, k, n - 1);
    }
  }

  lemma {:induction false} WordsPrefix(ts: seq<Trace>, k: nat, n: nat)
    requires k <= n
    ensures WordsUpTo(ts, k) <= WordsUpTo(ts, n)
    decreases n
  {
    hide WordsOf, TraceAt;
    if k < n {
      WordsPrefix(ts, k, n - 1);
    }
  }

  lemma {:induction false} SlotData(table: seq<nat>, p: nat, info: Callinfo, k: nat)
    requires EntryAt(table, p, info) && Decodable(info)
    ensures var tr := TraceAt(StackTraces(info), k);
            && PathFits(tr) && Readable(tr)
            && (tr.Callee? ==> ByteAt(table, ByteBase(p, info), |BytesUpTo(StackTraces(info), k)|) == tr.reg)
            && WordsAt(table, WordBase(p, info) + |WordsUpTo(StackTraces(info), k)|, WordsOf(tr))
  {
    hide EntryAt, ByteBase, WordBase, ByteAt, WordsAt, WordsOf, Specials, BytesUpTo, WordsUpTo, Decodable, StackTraces,
         PathFits, Readable;
    if k < |StackTraces(info)| {
      SlotReadable(info, k);
      if StackTraces(info)[k].Callee? {
        SlotBytes(table, p, info, k);
      }
      SlotWords(table, p, info, k);
    } else {
      NoReads(table, WordBase(p, info) + |WordsUpTo(StackTraces(info), k)|);
    }
  }

  lemma NoReads(table: seq<nat>, i: int)
    ensures PathFits(No) && Readable(No) && WordsAt(table, i, WordsOf(No))
  {}

  lemma {:induction false} SlotBytes(table: seq<nat>, p: nat, info: Callinfo, k: nat)
    requires EntryAt(table, p, info) && Decodable(info) && k < |StackTraces(info)| && StackTraces(info)[k].Callee?
    ensures ByteAt(table, ByteBase(p, info), |BytesUpTo(StackTraces(info), k)|) == StackTraces(info)[k].reg
  {
    hide EntryAt, ByteBase, ByteAt, Decodable, StackTraces;
    var ts := StackTraces(info);
    var done, all := BytesUpTo(ts, k), BytesUpTo(ts, |ts|);
    BytesPrefix(ts, k + 1, |ts|);
    assert BytesUpTo(ts, k + 1) == done + [ts[k].reg];
    ByteIs(table, p, info, |done|);
  }

  lemma SlotReadable(info: Callinfo, k: nat)
    requires Decodable(info) && k < |StackTraces(info)|
    ensures PathFits(StackTraces(info)[k]) && Readable(StackTraces(info)[k])
  {
    assert Fits(StackTraces(info)[k]);
  }

  lemma {:induction false} SlotWords(table: seq<nat>, p: nat, info: Callinfo, k: nat)
    requires EntryAt(table, p, info) && k < |StackTraces(info)|
    ensures WordsAt(table, WordBase(p, info) + |WordsUpTo(StackTraces(info), k)|, WordsOf(StackTraces(info)[k]))
  {
    hide EntryAt, WordBase, At, WordsOf, StackTraces;
    var ts := StackTraces(info);
    WordsPrefix(ts, k + 1, |ts|);
    var done := WordsUpTo(ts, k);
    forall j | 0 <= j < |WordsOf(ts[k])|
      ensures At(table, WordBase(p, info) + |done| + j) == WordsOf(ts[k])[j]
    {
      WordIs(table, p, info, |done| + j);
    }
  }

  // ---- walking over slots -------------------------------------------------------------

  lemma {:induction false} SkipNo(m: Memory, sp: int, regs: set<nat>, ts: seq<Trace>, a: nat, b: nat)
    requires a <= b && forall k | a <= k < b :: TraceAt(ts, k).No?
    ensures BytesUpTo(ts, a) == BytesUpTo(ts, b) && WordsUpTo(ts, a) == WordsUpTo(ts, b)
    ensures FrameRoots(m, sp, regs, ts, a) == FrameRoots(m, sp, regs, ts, b)
    decreases b
  {
    hide *;
    if a < b {
      SkipNo(m, sp, regs, ts, a, b - 1);
      OneNo(m, sp, regs, ts, b - 1);
    }
  }

  lemma OneNo(m: Memory, sp: int, regs: set<nat>, ts: seq<Trace>, k: nat)
    requires TraceAt(ts, k).No?
    ensures BytesUpTo(ts, k + 1) == BytesUpTo(ts, k) && WordsUpTo(ts, k + 1) == WordsUpTo(ts, k)
    ensures FrameRoots(m, sp, regs, ts, k + 1) == FrameRoots(m, sp, regs, ts, k)
  {
    hide TraceAt, IndexWords, Project;
  }

  lemma {:induction false} NoRoots(m: Memory, sp: int, regs: set<nat>, ts: seq<Trace>, n: nat)
    ensures FrameRoots(m, sp, regs, ts, 0) == [] && GapStart(ts, n, 0) == 0
  {}

  /** The slots from behind `i` slots with a trace to the next one. */
  ghost function GapStart(ts: seq<Trace>, n: nat, i: nat): nat
    requires i <= |Slots(ts, n)|
  {
    if i == 0 then 0 else Slots(ts, n)[i - 1] + 1
  }


  ghost function GapEnd(ts: seq<Trace>, n: nat, i: nat): nat { if i < |Slots(ts, n)| then Slots(ts, n)[i] else n }

  lemma {:induction false} SlotsBelow(ts: seq<Trace>, n: nat)
    ensures forall k | 0 <= k < |Slots(ts, n)| :: Slots(ts, n)[k] < n
  {
    if n > 0 {
      SlotsBelow(ts, n - 1);
    }
  }

  /** Between one slot with a trace and the next there are none. */
  lemma {:induction false} SlotGap(ts: seq<Trace>, n: nat, i: nat)
    requires i <= |Slots(ts, n)|
    ensures GapStart(ts, n, i) <= GapEnd(ts, n, i) <= n
    ensures forall k | GapStart(ts, n, i) <= k < GapEnd(ts, n, i) :: TraceAt(ts, k).No?
    decreases n
  {
    if n > 0 {
      SlotsBelow(ts, n - 1);
      if i <= |Slots(ts, n - 1)| {
        SlotGap(ts, n - 1, i);
      }
    }
  }

  lemma ChunkCount(info: Callinfo)
    requires Decodable(info)
    ensures (FrameWords(info) + 15) / 16 == WordsFor(FrameWords(info), 16)
    ensures 16 * ((FrameWords(info) + 15) / 16) >= FrameWords(info)
  {}

  /** The slots of the `i`th word have its bits. */
  ghost predicate ChunkIs(info: Callinfo, word: nat, i: nat) {
    forall d | 0 <= d < 16 :: Digit(word, 4, d) == SlotBot(info, i, d)
  }

  ghost function SlotBot(info: Callinfo, i: nat, d: nat): nat { BotOf(TraceAt(StackTraces(info), 16 * i + d)) }

  lemma ChunkBits(table: seq<nat>, p: nat, info: Callinfo, i: nat)
    requires EntryAt(table, p, info) && i < WordsFor(FrameWords(info), 16)
    ensures ChunkIs(info, At(table, BotBase(p) + i), i)
  {
    hide EntryAt, At, Digit, StackTraces, WordsFor;
    forall d | 0 <= d < 16
      ensures Digit(At(table, BotBase(p) + i), 4, d) == SlotBot(info, i, d)
    {
      assert (16 * i + d) / 16 == i && (16 * i + d) % 16 == d;
      BotAt(table, p, info, 16 * i + d);
    }
  }

  lemma NothingIn(info: Callinfo, word: nat, i: nat)
    requires ChunkIs(info, word, i) && word == 0
    ensures forall k | 16 * i <= k < 16 * i + 16 :: TraceAt(StackTraces(info), k).No?
  {
    hide StackTraces, TraceAt;
    forall k | 16 * i <= k < 16 * i + 16
      ensures TraceAt(StackTraces(info), k).No?
    {
      ShiftZero(4, k - 16 * i);
      assert Digit(word, 4, k - 16 * i) == SlotBot(info, i, k - 16 * i);
    }
  }

  /** Four pairs of bits make a byte. */
  lemma FourDigits(word: nat, k: nat)
    ensures Shift(word, 4, k + 4) == Shift(word, 4, k) / 256
    ensures Shift(word, 4, k) % 256 == 0 ==> forall d | k <= d < k + 4 :: Digit(word, 4, d) == 0
  {
    ShiftNext(word, 4, k);
    ShiftNext(word, 4, k + 1);
    ShiftNext(word, 4, k + 2);
    ShiftNext(word, 4, k + 3);
    var x := Shift(word, 4, k);
    assert x / 4 / 4 / 4 / 4 == x / 256;
    if x % 256 == 0 {
      assert x % 4 == 0 && x / 4 % 4 == 0 && x / 4 / 4 % 4 == 0 && x / 4 / 4 / 4 % 4 == 0;
      forall d | k <= d < k + 4
        ensures Digit(word, 4, d) == 0
      {
        assert d == k || d == k + 1 || d == k + 2 || d == k + 3;
      }
    }
  }

  lemma {:induction false} FourNo(info: Callinfo, word: nat, i: nat, j: nat)
    requires ChunkIs(info, word, i) && j < 4 && Shift(word, 4, 4 * j) % 256 == 0
    ensures forall k | 16 * i + 4 * j <= k < 16 * i + 4 * j + 4 :: TraceAt(StackTraces(info), k).No?
  {
    FourDigits(word, 4 * j);
    hide StackTraces, TraceAt, Digit;
    forall k | 16 * i + 4 * j <= k < 16 * i + 4 * j + 4
      ensures TraceAt(StackTraces(info), k).No?
    {
      assert Digit(word, 4, k - 16 * i) == SlotBot(info, i, k - 16 * i);
    }
  }

  // ---- registers -----------------------------------------------------------------------

  /** Registers below `q` with a special trace that says pointer. */
  ghost function SpecialRegs(m: Memory, sp: int, info: Callinfo, q: nat): set<nat> {
    set n | 0 <= n < 32 && n < q && RegTraces(info)[n].Special? && Traced(m, sp, {}, RegTraces(info)[n])
  }

  lemma RegsStart(m: Memory, sp: int, info: Callinfo)
    ensures SpecialRegs(m, sp, info, 0) == {}
  {}

  lemma NextRegs(m: Memory, sp: int, info: Callinfo, q: nat)
    requires q < 32
    ensures SpecialRegs(m, sp, info, q + 1)
         == SpecialRegs(m, sp, info, q) + if RegTraces(info)[q].Special?
           && Traced(m, sp, {}, RegTraces(info)[q]) then {q} else {}
  {
    hide RegTraces, Traced;
  }

  lemma {:induction false} SkipPlain(m: Memory, sp: int, info: Callinfo, a: nat, b: nat)
    requires a <= b <= 32 && forall n | a <= n < b :: !RegTraces(info)[n].Special?
    ensures WordsUpTo(RegTraces(info), a) == WordsUpTo(RegTraces(info), b)
    ensures SpecialRegs(m, sp, info, a) == SpecialRegs(m, sp, info, b)
    decreases b
  {
    hide RegTraces, Traced;
    if a < b {
      SkipPlain(m, sp, info, a, b - 1);
      NextRegs(m, sp, info, b - 1);
    }
  }

  lemma {:induction false} RegData(table: seq<nat>, p: nat, info: Callinfo, q: nat)
    requires EntryAt(table, p, info) && Decodable(info) && q < 32
    ensures var tr := RegTraces(info)[q];
            && PathFits(tr) && Readable(tr)
            && WordsAt(table, WordBase(p, info) + |AllWords(StackTraces(info))| + |WordsUpTo(RegTraces(info), q)|,
                       WordsOf(tr))
  {
    hide *;
    RegReadable(info, q);
    RegWords(table, p, info, q);
  }

  lemma {:induction false} RegWords(table: seq<nat>, p: nat, info: Callinfo, q: nat)
    requires EntryAt(table, p, info) && q < 32
    ensures WordsAt(table, WordBase(p, info) + |AllWords(StackTraces(info))| + |WordsUpTo(RegTraces(info), q)|,
                    WordsOf(RegTraces(info)[q]))
  {
    hide EntryAt, WordBase, At, WordsOf, StackTraces, RegTraces, AllWords, WordsUpTo, Specials;
    var at := |AllWords(StackTraces(info))| + |WordsUpTo(RegTraces(info), q)|;
    forall j | 0 <= j < |WordsOf(RegTraces(info)[q])|
      ensures At(table, WordBase(p, info) + at + j) == WordsOf(RegTraces(info)[q])[j]
    {
      RegSpecial(info, q, j);
      WordIs(table, p, info, at + j);
    }
  }

  lemma {:induction false} RegSpecial(info: Callinfo, q: nat, j: nat)
    requires q < 32 && j < |WordsOf(RegTraces(info)[q])|
    ensures var at := |AllWords(StackTraces(info))| + |WordsUpTo(RegTraces(info), q)| + j;
            at < |Specials(info)| && Specials(info)[at] == WordsOf(RegTraces(info)[q])[j]
  {
    hide WordsOf, StackTraces, RegTraces, AllWords;
    var ts := RegTraces(info);
    WordsPrefix(ts, q + 1, 32);
    AllOf(ts);
    assert WordsUpTo(ts, q + 1) == WordsUpTo(ts, q) + WordsOf(ts[q]);
  }

  lemma RegReadable(info: Callinfo, q: nat)
    requires Decodable(info) && q < 32
    ensures PathFits(RegTraces(info)[q]) && Readable(RegTraces(info)[q])
  {}

  lemma {:induction false} AllOf(ts: seq<Trace>)
    ensures AllWords(ts) == WordsUpTo(ts, |ts|)
  {}

  // ---- stacks ----------------------------------------------------------------------------

  ghost function Height(infos: Infos, fs: seq<nat>): int
    requires AllIn(infos, fs)
    decreases fs
  {
    if fs == [] then 0 else 4 * FrameWords(infos[fs[0]]) + Height(infos, fs[1..])
  }

  lemma {:induction false} HeightOf(infos: Infos, fs: seq<nat>)
    requires fs != [] && AllIn(infos, fs)
    ensures Height(infos, fs) == 4 * FrameWords(infos[fs[0]]) + Height(infos, fs[1..])
  {}

  lemma {:induction false} StackHeight(m: Memory, find: map<int, nat>, infos: Infos, sp: int, ra: int, fs: seq<nat>,
                                       top: int)
    requires StackIs(m, find, infos, sp, ra, fs, top)
    ensures AllIn(infos, fs) && sp == top - Height(infos, fs)
    decreases fs
  {
    hide Decodable, FrameWords;
    if fs != [] {
      StackHeight(m, find, infos, sp + 4 * FrameWords(infos[fs[0]]), m.load(sp, infos[fs[0]].retAddPos / 4), fs[1..],
                  top);
      assert fs == [fs[0]] + fs[1..];
    }
  }

  /** There are frames left exactly below the top. */
  lemma {:induction false} StackUp(m: Memory, find: map<int, nat>, infos: Infos, sp: int, ra: int, fs: seq<nat>,
                                   top: int)
    requires StackIs(m, find, infos, sp, ra, fs, top)
    ensures sp < top <==> fs != []
  {
    if fs != [] {
      StackHeight(m, find, infos, sp, ra, fs, top);
      HeightBelow(infos, fs[1..]);
    }
  }

  lemma {:induction false} HeightBelow(infos: Infos, fs: seq<nat>)
    requires AllIn(infos, fs)
    ensures Height(infos, fs) >= 0
    decreases fs
  {
    if fs != [] {
      HeightBelow(infos, fs[1..]);
    }
  }

  lemma RetAddExactAt(info: Callinfo)
    requires Decodable(info)
    ensures RetAddOffset(info) == info.retAddPos / 4 < 31
  {}

  lemma FrameAgrees(info: Callinfo)
    requires Decodable(info)
    ensures StackWordsRead(FrameWords(info)) == WordsFor(FrameWords(info), 16)
  {
    StackWordsExact(FrameWords(info));
  }
}

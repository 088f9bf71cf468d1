/** The compiler's side of the collector's trace tables: one entry for every call
    site, describing which registers and stack slots hold pointers there. */
module TraceTable {
  import opened Packing
  import opened Wrappers

  /** Where the type of a special value is to be found. */
  datatype Base = OnFrame(pos: nat) | AtLabel(address: nat) | AtGlobal(address: nat)

  /** Whether a location holds a pointer: never, always, when a callee-save register
      did in the caller, or when the type at the end of a path of indices says so. */
  datatype Trace = No | Yes | Callee(reg: nat) | Special(base: Base, indices: seq<nat>)

  datatype Callinfo = Callinfo(callLabel: nat, frameSize: nat, retAddPos: int,
                               regTrace: seq<(nat, Trace)>, stackTrace: seq<(nat, Trace)>)

  /** The first entry for a position. */
  function Lookup(traces: seq<(nat, Trace)>, n: nat): Trace {
    if traces == [] then No
    else if traces[0].0 == n then traces[0].1
    else Lookup(traces[1..], n)
  }

  /** What is looked up is the trace of the first entry for the position, if there is one. */
  lemma {:induction false} LookupFirst(traces: seq<(nat, Trace)>, n: nat)
    ensures (forall e | e in traces :: e.0 != n) ==> Lookup(traces, n) == No
    ensures forall k | 0 <= k < |traces| && traces[k].0 == n && (forall j | 0 <= j < k :: traces[j].0 != n) ::
              Lookup(traces, n) == traces[k].1
  {
    if traces != [] {
      LookupFirst(traces[1..], n);
      assert forall j | 0 < j < |traces| :: traces[j] == traces[1..][j - 1];
    }
  }

  function StackTraces(info: Callinfo): (r: seq<Trace>)
    ensures |r| == info.frameSize / 4
  {
    seq(info.frameSize / 4, k requires 0 <= k => Lookup(info.stackTrace, 4 * k))
  }

  function RegTraces(info: Callinfo): (r: seq<Trace>)
    ensures |r| == 32
  {
    seq(32, k requires 0 <= k => Lookup(info.regTrace, k))
  }

  // ---- paths ---------------------------------------------------------------------

  const INDEX_MAX := 30

  /** A word being filled with indices from the right, and the full words after it. */
  datatype Packed = Packed(count: nat, word: nat, words: seq<nat>)

  function PackOne(bits: nat, p: Packed): Packed {
    if p.count == 6 then Packed(1, bits, [p.word] + p.words)
    else Packed(p.count + 1, p.word * 32 + bits, p.words)
  }

  function PackAll(bits: seq<nat>): Packed {
    if bits == [] then Packed(0, 0, []) else PackOne(bits[0], PackAll(bits[1..]))
  }

  /** Indices raised by one, and the zero that ends them. */
  function Bits(indices: seq<nat>): (r: seq<nat>)
    ensures |r| == |indices| + 1
  {
    seq(|indices|, k requires 0 <= k < |indices| => indices[k] + 1) + [0]
  }

  function IndexWords(indices: seq<nat>): (r: seq<nat>)
    ensures r != []
  {
    var p := PackAll(Bits(indices));
    [p.word] + p.words
  }

  /** Reading a path, six indices to a word, up to the zero: the indices, and how many
      further words were taken. */
  function ReadPath(ws: seq<nat>, k: nat): Option<(seq<nat>, nat)>
    decreases 6 * |ws| - k
  {
    if k / 6 >= |ws| then None
    else if Field(ws, 32, 6, k) == 0 then Some(([], k / 6))
    else
      match ReadPath(ws, k + 1)
      case None => None
      case Some((rest, used)) => Some(([Field(ws, 32, 6, k) - 1] + rest, used))
  }

  ghost predicate PacksTo(bits: seq<nat>, p: Packed) {
    && bits != [] && p.count == (|bits| - 1) % 6 + 1 && |p.words| == (|bits| - 1) / 6
    && (forall k | 0 <= k < 6 :: Digit(p.word, 32, k) == if k < p.count then bits[k] else 0)
    && (forall k | 0 <= k < |bits| - p.count :: Field(p.words, 32, 6, k) == bits[p.count + k])
  }

  lemma {:induction false} PackAllPacks(bits: seq<nat>)
    requires bits != [] && AllBelow(bits, 32)
    ensures PacksTo(bits, PackAll(bits))
    decreases bits
  {
    hide PacksTo;
    if |bits| == 1 {
      PackFirst(bits);
    } else {
      PackAllPacks(bits[1..]);
      PackMore(bits, PackAll(bits[1..]));
    }
  }

  lemma {:induction false} PackFirst(bits: seq<nat>)
    requires |bits| == 1 && bits[0] < 32
    ensures PacksTo(bits, PackAll(bits))
  {
    assert bits[1..] == [];
    assert Pack(bits, 32) == bits[0] + 32 * Pack(bits[1..], 32);
    forall k | 0 <= k < 6
      ensures Digit(bits[0], 32, k) == if k < 1 then bits[k] else 0
    {
      DigitOfPack(bits, 32, k);
    }
  }

  lemma PackMore(bits: seq<nat>, p: Packed)
    requires |bits| > 1 && bits[0] < 32 && PacksTo(bits[1..], p)
    ensures PacksTo(bits, PackOne(bits[0], p))
  {
    hide Field, Digit;
    if p.count == 6 {
      PackNewWord(bits, p);
    } else {
      var q := PackOne(bits[0], p);
      forall k | 0 <= k < 6
        ensures Digit(q.word, 32, k) == if k < q.count then bits[k] else 0
      {
        DigitPushed(p.word, bits[0], k);
        assert k > 0 ==> Digit(p.word, 32, k - 1) == if k - 1 < p.count then bits[1..][k - 1] else 0;
      }
      NextCount(|bits|);
      forall k | 0 <= k < |bits| - q.count
        ensures Field(q.words, 32, 6, k) == bits[q.count + k]
      {
        assert bits[1..][p.count + k] == bits[p.count + 1 + k];
      }
    }
  }

  lemma NextCount(n: nat)
    requires n >= 2 && (n - 2) % 6 + 1 != 6
    ensures (n - 1) % 6 == (n - 2) % 6 + 1 && (n - 1) / 6 == (n - 2) / 6
  {}

  lemma DigitPushed(w: nat, d: nat, k: nat)
    requires d < 32
    ensures Digit(w * 32 + d, 32, k) == if k == 0 then d else Digit(w, 32, k - 1)
  {
    assert (w * 32 + d) / 32 == w && (w * 32 + d) % 32 == d;
  }

  lemma PackNewWord(bits: seq<nat>, p: Packed)
    requires |bits| > 1 && bits[0] < 32 && PacksTo(bits[1..], p) && p.count == 6
    ensures PacksTo(bits, Packed(1, bits[0], [p.word] + p.words))
  {
    hide Field, Digit;
    PackFirst([bits[0]]);
    assert PackAll([bits[0]]) == Packed(1, bits[0], []);
    forall k | 0 <= k < |bits| - 1
      ensures Field([p.word] + p.words, 32, 6, k) == bits[1 + k]
    {
      if k < 6 {
        FirstField(p.word, p.words, k);
      } else {
        FieldMinus(p.word, p.words, 32, 6, k);
      }
    }
  }

  lemma FirstField(w: nat, rest: seq<nat>, k: nat)
    requires k < 6
    ensures Field([w] + rest, 32, 6, k) == Digit(w, 32, k)
  {}

  lemma {:induction false} ReadFrom(ws: seq<nat>, path: seq<nat>, k: nat)
    requires k <= |path| && |path| / 6 < |ws|
    requires forall j | 0 <= j < |path| :: Field(ws, 32, 6, j) == path[j] + 1
    requires Field(ws, 32, 6, |path|) == 0
    ensures ReadPath(ws, k) == Some((path[k..], |path| / 6))
    decreases |path| - k
  {
    hide Field;
    if k < |path| {
      ReadFrom(ws, path, k + 1);
      assert path[k..] == [path[k]] + path[k + 1..];
    } else {
      assert path[k..] == [];
    }
  }

  /** What the path of a special trace reads back as: itself, or when its words do not
      come out even, only the indices of the first word. */
  function ReadBack(indices: seq<nat>): seq<nat> {
    if |indices| <= 5 || (|indices| + 1) % 6 == 0 then indices else indices[..(|indices| + 1) % 6]
  }

  lemma BitsBelow(indices: seq<nat>)
    requires forall a | a in indices :: a <= INDEX_MAX
    ensures AllBelow(Bits(indices), 32)
  {
    forall k | 0 <= k < |Bits(indices)|
      ensures Bits(indices)[k] < 32
    {
      if k < |indices| {
        assert indices[k] in indices;
      }
    }
  }

  /** The fields of a path's words, up to the zero that ends it. */
  lemma PathFields(indices: seq<nat>)
    requires forall a | a in indices :: a <= INDEX_MAX
    ensures var ws, path := IndexWords(indices), ReadBack(indices);
            && |ws| == |indices| / 6 + 1
            && forall k | 0 <= k <= |path| :: Field(ws, 32, 6, k) == if k < |path| then path[k] + 1 else 0
  {
    hide PackAll, Field, PacksTo, Bits, ReadBack;
    BitsBelow(indices);
    PackAllPacks(Bits(indices));
    assert |IndexWords(indices)| == |indices| / 6 + 1 by { PackedCount(Bits(indices), PackAll(Bits(indices))); }
    forall k | 0 <= k <= |ReadBack(indices)|
      ensures Field(IndexWords(indices), 32, 6, k) == if k < |ReadBack(indices)| then ReadBack(indices)[k] + 1 else 0
    {
      PathField(indices, PackAll(Bits(indices)), k);
    }
  }

  lemma PackedCount(bits: seq<nat>, p: Packed)
    requires PacksTo(bits, p)
    ensures |p.words| == (|bits| - 1) / 6
  {}

  lemma PathField(indices: seq<nat>, p: Packed, k: nat)
    requires PacksTo(Bits(indices), p) && k <= |ReadBack(indices)|
    ensures Field([p.word] + p.words, 32, 6, k) == if k < |ReadBack(indices)| then ReadBack(indices)[k] + 1 else 0
  {
    hide Field, Digit;
    if k < 6 {
      FirstField(p.word, p.words, k);
    } else {
      FieldMinus(p.word, p.words, 32, 6, k);
      assert p.count == 6;
      assert Field(p.words, 32, 6, k - 6) == Bits(indices)[k];
    }
  }

  lemma PathReads(indices: seq<nat>)
    requires forall a | a in indices :: a <= INDEX_MAX
    ensures ReadPath(IndexWords(indices), 0) == Some((ReadBack(indices), |ReadBack(indices)| / 6))
  {
    hide Field, IndexWords;
    PathFields(indices);
    var path := ReadBack(indices);
    ReadFrom(IndexWords(indices), path, 0);
    assert path[0..] == path;
  }

  /** A path reads back as itself, and its words are all taken, exactly when it has
      at most five indices or fills its words evenly. */
  lemma PathRoundTrip(indices: seq<nat>)
    requires forall a | a in indices :: a <= INDEX_MAX
    ensures var ws := IndexWords(indices);
            ReadPath(ws, 0) == Some((indices, |ws| - 1)) <==> |indices| <= 5 || (|indices| + 1) % 6 == 0
  {
    PathReads(indices);
    PathFields(indices);
  }

  /** Six indices do not come back: their words read as the first alone. */
  lemma SixIndices(indices: seq<nat>)
    requires indices == [3, 1, 4, 1, 5, 9]
    ensures ReadPath(IndexWords(indices), 0) == Some(([3], 0)) && |IndexWords(indices)| == 2
  {
    PathReads(indices);
    PathFields(indices);
    assert ReadBack(indices) == [3];
  }

  /** The indices of a word leave its top two bits free. */
  lemma {:induction false} WordBound(bits: seq<nat>)
    requires AllBelow(bits, 32)
    ensures PackAll(bits).count <= 6 && PackAll(bits).word < Power(32, PackAll(bits).count)
    decreases bits
  {
    if bits != [] {
      WordBound(bits[1..]);
      assert bits[1..] == [] || bits[1..] != [];
      var p := PackAll(bits[1..]);
      if p.count == 6 {
        assert Power(32, 1) == 32 * Power(32, 0);
      } else {
        assert Power(32, p.count + 1) == 32 * Power(32, p.count);
      }
    }
  }

  lemma {:induction false} PowerGrows(n: nat)
    requires n <= 6
    ensures Power(32, n) <= 0x4000_0000 && Power(32, 6) == 0x4000_0000
  {
    assert Power(32, 1) == 32;
    assert Power(32, 2) == 1024;
    assert Power(32, 3) == 32768;
    assert Power(32, 4) == 0x10_0000;
    assert Power(32, 5) == 0x200_0000;
    assert Power(32, 6) == 0x4000_0000;
  }

  // ---- entries -----------------------------------------------------------------------

  const TYPE_UNIT := 0x4000_0000
  const HALF := 65536

  function TypeInt(b: Base): nat {
    match b
    case OnFrame(_) => 0
    case AtLabel(_) => 1
    case AtGlobal(_) => 2
  }

  function TypeData(b: Base): nat {
    match b
    case OnFrame(pos) => pos
    case AtLabel(address) => address
    case AtGlobal(address) => address
  }

  /** The two bits of a stack slot. */
  function BotOf(tr: Trace): (b: nat)
    ensures b < 4
  {
    match tr
    case No => 0
    case Yes => 1
    case Callee(_) => 2
    case Special(_, _) => 3
  }

  /** The pair of bits of a register. A callee trace is for the register itself; any
      other is recorded as a plain pointer. */
  function RegBits(n: nat, tr: Trace): (nat, nat) {
    match tr
    case No => (0, 0)
    case Yes => (1, 0)
    case Callee(r) => (1, if r == n then 1 else 0)
    case Special(_, _) => (0, 1)
  }

  function BytesOf(tr: Trace): seq<nat> { if tr.Callee? then [tr.reg] else [] }

  function WordsOf(tr: Trace): seq<nat> {
    if tr.Special? then
      var ws := IndexWords(tr.indices);
      [ws[0] + TypeInt(tr.base) * TYPE_UNIT, TypeData(tr.base)] + ws[1..]
    else []
  }

  function TraceAt(ts: seq<Trace>, k: nat): Trace { if k < |ts| then ts[k] else No }

  /** The special bytes and words of the first `k` locations. */
  function BytesUpTo(ts: seq<Trace>, k: nat): seq<nat> {
    if k == 0 then [] else BytesUpTo(ts, k - 1) + BytesOf(TraceAt(ts, k - 1))
  }

  function WordsUpTo(ts: seq<Trace>, k: nat): seq<nat> {
    if k == 0 then [] else WordsUpTo(ts, k - 1) + WordsOf(TraceAt(ts, k - 1))
  }

  function AllBytes(ts: seq<Trace>): seq<nat> { BytesUpTo(ts, |ts|) }

  function AllWords(ts: seq<Trace>): seq<nat> { WordsUpTo(ts, |ts|) }

  /** The first word of a special trace: its kind, and the indices below it. */
  lemma FirstSpecial(base: Base, indices: seq<nat>)
    requires forall a | a in indices :: a <= INDEX_MAX
    ensures var w := WordsOf(Special(base, indices))[0];
            && w / 0x4000_0000 % 4 == TypeInt(base)
            && TypeInt(base) == (if base.OnFrame? then 0 else if base.AtLabel? then 1 else 2)
            && forall k | 0 <= k < 6 :: Digit(w, 32, k) == Field(IndexWords(indices), 32, 6, k)
  {
    hide PackAll, Digit, Power;
    var bits := Bits(indices);
    BitsBelow(indices);
    WordBound(bits);
    var p := PackAll(bits);
    PowerGrows(p.count);
    DivMod(TYPE_UNIT, p.word, TypeInt(base));
    forall k | 0 <= k < 6
      ensures Digit(p.word + TypeInt(base) * TYPE_UNIT, 32, k) == Digit(p.word, 32, k)
    {
      DigitBelow(p.word, TypeInt(base), 32, 6, k);
    }
    forall k | 0 <= k < 6
      ensures Field(IndexWords(indices), 32, 6, k) == Digit(p.word, 32, k)
    {
      FirstField(p.word, p.words, k);
    }
  }

  predicate PathFits(tr: Trace) { tr.Special? ==> forall a | a in tr.indices :: a <= INDEX_MAX }

  predicate Fits(tr: Trace) { PathFits(tr) && (tr.Callee? ==> tr.reg <= 255) }

  /** Bytes in words, the first byte highest, the last word filled up with zeros. */
  function ByteWords(bs: seq<nat>): seq<nat>
    decreases |bs|
  {
    if bs == [] then []
    else
      var b := bs + [0, 0, 0];
      [Pack([b[3], b[2], b[1], b[0]], 256)] + ByteWords(if |bs| < 4 then [] else bs[4..])
  }

  function Bots(ts: seq<Trace>): (r: seq<nat>)
    ensures |r| == |ts| && forall k | 0 <= k < |r| :: r[k] == BotOf(ts[k])
  {
    seq(|ts|, k requires 0 <= k < |ts| => BotOf(ts[k]))
  }

  function RegMask(ts: seq<Trace>, second: bool): (r: seq<nat>)
    ensures |r| == |ts|
  {
    seq(|ts|, k requires 0 <= k < |ts| => if second then RegBits(k, ts[k]).1 else RegBits(k, ts[k]).0)
  }

  /** The offset of the return address as the size words record it, and the bytes. */
  function RetAddOffset(info: Callinfo): int { if info.retAddPos < 124 then info.retAddPos / 4 else 15 }

  function ByteData(info: Callinfo): seq<nat> {
    ByteWords((if info.retAddPos < 124 then [] else [Nat(info.retAddPos / 4)]) + AllBytes(StackTraces(info)))
  }

  function Nat(n: int): nat { if n < 0 then 0 else n }

  function MaskBits(info: Callinfo, second: bool): seq<nat> { Layout(0, 0, RegMask(RegTraces(info), second), 2, 32) }

  function StackBits(info: Callinfo): seq<nat> { Layout(0, 0, Bots(StackTraces(info)), 4, 16) }

  function CallData(info: Callinfo): seq<nat> {
    MaskBits(info, false) + MaskBits(info, true) + StackBits(info) + ByteData(info) + AllWords(StackTraces(info))
    + AllWords(RegTraces(info))
  }

  function EntrySize(info: Callinfo): nat { 3 + |CallData(info)| }

  function Header(info: Callinfo): (r: seq<nat>)
    ensures |r| == 3
  {
    [info.callLabel, EntrySize(info) + HALF * (info.frameSize / 4), |ByteData(info)| + HALF * Nat(RetAddOffset(info))]
  }

  function EntryOf(info: Callinfo): seq<nat> { Header(info) + CallData(info) }

  /** What the compiler accepts. */
  predicate Encodable(info: Callinfo) {
    && info.frameSize % 4 == 0
    && 0 <= info.retAddPos <= 1020 && info.retAddPos % 4 == 0
    && (forall k | 0 <= k < |StackTraces(info)| :: Fits(StackTraces(info)[k]))
    && (forall k | 0 <= k < 32 :: PathFits(RegTraces(info)[k]))
    && EntrySize(info) < HALF && info.frameSize / 4 < HALF && |ByteData(info)| < HALF
  }

  /** The encoder's accumulators for special bytes and words. */
  class Encoder {
    var bytes: seq<nat>
    var words: seq<nat>

    constructor ()
      ensures bytes == [] && words == []
    {
      bytes, words := [], [];
    }

    /** Adds a special trace's words, unless an index is out of range. */
    method AddSpecial(base: Base, indices: seq<nat>) returns (ok: bool)
      modifies this`words
      ensures ok <==> PathFits(Special(base, indices))
      ensures ok ==> words == old(words) + WordsOf(Special(base, indices))
    {
      hide IndexWords, TypeInt, TypeData;
      ok := forall a | a in indices :: a <= INDEX_MAX;
      if ok {
        var ws := IndexWords(indices);
        var first := ws[0] + TypeInt(base) * TYPE_UNIT;
        words := words + [first, TypeData(base)];
        words := words + ws[1..];
        assert words == old(words) + ([first, TypeData(base)] + ws[1..]);
        assert WordsOf(Special(base, indices)) == [first, TypeData(base)] + ws[1..];
      }
    }

    /** A slot's two bits, with its special data added behind what there is. */
    method TraceBot(tr: Trace) returns (bot: Option<nat>)
      modifies this
      ensures bot == if Fits(tr) then Some(BotOf(tr)) else None
      ensures bot.Some? ==> bytes == old(bytes) + BytesOf(tr) && words == old(words) + WordsOf(tr)
    {
      match tr
      case No => bot := Some(0);
      case Yes => bot := Some(1);
      case Callee(r) =>
        if r > 255 {
          return None;
        }
        bytes := bytes + [r];
        bot := Some(2);
      case Special(base, indices) =>
        var ok := AddSpecial(base, indices);
        bot := if ok then Some(3) else None;
    }

    method RegTraceBits(n: nat, tr: Trace) returns (bits: Option<(nat, nat)>)
      modifies this
      ensures bits == if PathFits(tr) then Some(RegBits(n, tr)) else None
      ensures bytes == old(bytes) && (bits.Some? ==> words == old(words) + WordsOf(tr))
    {
      match tr
      case No => bits := Some((0, 0));
      case Yes => bits := Some((1, 0));
      case Callee(r) => bits := Some((1, if r == n then 1 else 0));
      case Special(base, indices) =>
        var ok := AddSpecial(base, indices);
        bits := if ok then Some((0, 1)) else None;
    }

    /** The bits of the frame's slots, in order. */
    method StackLoop(info: Callinfo) returns (bots: Option<seq<nat>>)
      requires info.frameSize % 4 == 0
      modifies this
      ensures bots == if forall k | 0 <= k < |StackTraces(info)| ::
                Fits(StackTraces(info)[k]) then Some(Bots(StackTraces(info))) else None
      ensures bots.Some? ==>
                bytes == old(bytes) + AllBytes(StackTraces(info)) && words == old(words) + AllWords(StackTraces(info))
    {
      hide Lookup, WordsOf, BytesOf, Fits, BotOf;
      ghost var ts := StackTraces(info);
      var done: seq<nat> := [];
      var n := 0;
      ghost var k := 0;
      while n < info.frameSize
        invariant n == 4 * k && k <= |ts|
        invariant done == Bots(ts)[..k]
        invariant forall j | 0 <= j < k :: Fits(ts[j])
        invariant bytes == old(bytes) + BytesUpTo(ts, k) && words == old(words) + WordsUpTo(ts, k)
        decreases info.frameSize - n
      {
        var tr := Lookup(info.stackTrace, n);
        assert k < |ts| && ts[k] == tr;
        var bot := TraceBot(tr);
        if bot.None? {
          return None;
        }
        done := done + [bot.value];
        n := n + 4;
        k := k + 1;
      }
      assert k == |ts| && Bots(ts)[..k] == Bots(ts);
      return Some(done);
    }

    /** The two masks of the registers. */
    method RegLoop(info: Callinfo) returns (masks: Option<(seq<nat>, seq<nat>)>)
      modifies this
      ensures masks == if forall k | 0 <= k < 32 :: PathFits(RegTraces(info)[k])
                       then Some((RegMask(RegTraces(info), false), RegMask(RegTraces(info), true))) else None
      ensures bytes == old(bytes) && (masks.Some? ==> words == old(words) + AllWords(RegTraces(info)))
    {
      hide Lookup, WordsOf, PathFits, RegBits;
      ghost var ts := RegTraces(info);
      var a: seq<nat>, b: seq<nat> := [], [];
      for n := 0 to 32
        invariant a == RegMask(ts, false)[..n] && b == RegMask(ts, true)[..n]
        invariant forall k | 0 <= k < n :: PathFits(ts[k])
        invariant bytes == old(bytes) && words == old(words) + WordsUpTo(ts, n)
      {
        var tr := Lookup(info.regTrace, n);
        assert ts[n] == tr;
        var bits := RegTraceBits(n, tr);
        if bits.None? {
          return None;
        }
        a, b := a + [bits.value.0], b + [bits.value.1];
      }
      assert RegMask(ts, false)[..32] == RegMask(ts, false) && RegMask(ts, true)[..32] == RegMask(ts, true);
      return Some((a, b));
    }

    /** Lays out the entry of a call site, or reports an error. */
    method DoCallinfo(info: Callinfo) returns (entry: Option<seq<nat>>)
      modifies this
      ensures entry == if Encodable(info) then Some(EntryOf(info)) else None
    {
      hide StackTraces, RegTraces, Bots, RegMask, AllWords, AllBytes, Layout, ByteWords, Fits, PathFits;
      if info.frameSize % 4 != 0 {
        return None;
      }
      words, bytes := [], [];
      var bots := StackLoop(info);
      if bots.None? {
        return None;
      }
      var masks := RegLoop(info);
      if masks.None? {
        return None;
      }
      if info.retAddPos < 0 || info.retAddPos % 4 != 0 || info.retAddPos > 1020 {
        return None;
      }
      var offset := 15;
      if info.retAddPos < 124 {
        offset := info.retAddPos / 4;
      } else {
        bytes := [info.retAddPos / 4] + bytes;
      }
      var byteData := ByteWords(bytes);
      var callData := Layout(0, 0, masks.value.0, 2, 32) + Layout(0, 0, masks.value.1, 2, 32)
        + Layout(0, 0, bots.value, 4, 16) + (byteData + words);
      assert [] + AllBytes(StackTraces(info)) == AllBytes(StackTraces(info));
      assert callData == CallData(info);
      var entrySize := 3 + |callData|;
      if entrySize >= HALF || info.frameSize / 4 >= HALF || |byteData| >= HALF {
        return None;
      }
      return Some([info.callLabel, entrySize + HALF * (info.frameSize / 4), |byteData| + HALF * offset] + callData);
    }
  }
}

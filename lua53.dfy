/**
 * The Lua 5.3 prototype decoder (src/lua53.rs). A string is a one-byte
 * size, or the escape byte `0xFF` and a little-endian 64-bit size, the
 * size counting one more than the bytes that follow. The constants are an
 * `alt` of tag readers; upvalue descriptions (read as in Lua 5.2) come
 * before the nested prototypes.
 */
module Lua53 {
  import opened LuaTypes
  import opened Primitives
  import Lua51
  import Lua52

  // ----- load_string and lua_local (src/lua53.rs:5-28) -----

  /** The size of `load_string`: a byte, or the escape `0xFF` and a little-endian 64-bit size. */
  function ReadSize(s: Bytes): (r: Result<nat>)
    ensures Shorter(r, s)
    ensures r.Ok? ==> r.value < TWO_64
    ensures r.Err? ==> r.failure == Reject
  {
    var (b, s1) :- ReadU8(s);
    if b == 0xFF then ReadUInt(8, false, s1) else Ok(b, s1)
  }

  /** `load_string`: zero is the empty (absent) string, any other size `n` is `n - 1` bytes. */
  function LoadString(s: Bytes): (r: Result<Bytes>)
    ensures Shorter(r, s)
    ensures r.Err? ==> r.failure == Reject
  {
    var (n, s1) :- ReadSize(s);
    if n == 0 then Ok([], s1) else Take(n - 1, s1)
  }

  /** The size a writer emits for `n`: one byte below the escape, the escape and eight bytes from it on. */
  function SizeBytes(n: nat): Bytes
  {
    if n < 0xFF then [n] else [0xFF] + LeBytes(n, 8)
  }

  function StringBytes(bs: Bytes): Bytes
  {
    SizeBytes(|bs| + 1) + bs
  }

  predicate StringFits(bs: Bytes) {
    |bs| + 1 < TWO_64
  }

  lemma SizeRoundTrip(n: nat, rest: Bytes)
    requires n < TWO_64
    ensures ReadSize(SizeBytes(n) + rest) == Ok(n, rest)
  {
    if n >= 0xFF {
      EscapedSize(n, SizeBytes(n) + rest, rest);
    } else {
      assert (SizeBytes(n) + rest)[1..] == rest;
    }
  }

  /** From the escape byte on, a size is eight little-endian bytes. */
  lemma EscapedSize(n: nat, s: Bytes, rest: Bytes)
    requires n < TWO_64 && s == [0xFF] + LeBytes(n, 8) + rest
    ensures ReadSize(s) == Ok(n, rest)
  {
    assert s[1..] == LeBytes(n, 8) + rest;
    EightBytesRoundTrip(n, s[1..], rest);
  }

  lemma StringRoundTrip(bs: Bytes, rest: Bytes)
    requires StringFits(bs)
    ensures LoadString(StringBytes(bs) + rest) == Ok(bs, rest)
  {
    Append(SizeBytes(|bs| + 1), bs, rest);
    SizeRoundTrip(|bs| + 1, bs + rest);
    assert (bs + rest)[..|bs|] == bs;
    assert (bs + rest)[|bs|..] == rest;
  }

  /** The size zero, the absent string, reads as the empty string. */
  lemma StringAbsent(rest: Bytes)
    ensures LoadString([0] + rest) == Ok([], rest)
  {
    assert ([0] + rest)[1..] == rest;
  }

  /** `lua_local`: a name and two pcs; the register is the default zero. */
  function LuaLocal(h: Header, s: Bytes): (r: Result<Local>)
    ensures Shorter(r, s)
    ensures r.Ok? ==> r.value.reg == 0
    ensures r.Err? ==> r.failure == Reject
  {
    var (name, s1) :- LoadString(s);
    var (startPc, s2) :- LuaInt(h, s1);
    var (endPc, s3) :- LuaInt(h, s2);
    Ok(Local(name, startPc, endPc, 0), s3)
  }

  predicate LocalFits(h: Header, l: Local) {
    StringFits(l.name) && FitsInt(h, l.startPc) && FitsInt(h, l.endPc) && l.reg == 0
  }

  function LocalBytes(h: Header, l: Local): Bytes
  {
    StringBytes(l.name) + (IntBytes(h, l.startPc) + IntBytes(h, l.endPc))
  }

  lemma LocalRoundTrip(h: Header, l: Local, rest: Bytes)
    requires LocalFits(h, l)
    ensures LuaLocal(h, LocalBytes(h, l) + rest) == Ok(l, rest)
  {
    var t2 := IntBytes(h, l.endPc) + rest;
    var t1 := IntBytes(h, l.startPc) + t2;
    Append(IntBytes(h, l.startPc), IntBytes(h, l.endPc), rest);
    Append(StringBytes(l.name), IntBytes(h, l.startPc) + IntBytes(h, l.endPc), rest);
    StringRoundTrip(l.name, t1);
    IntRoundTrip(h, l.startPc, t2);
    IntRoundTrip(h, l.endPc, rest);
  }

  // ----- constants (src/lua53.rs:57-67, 129-161) -----

  function TakeLvNil(s: Bytes): Result<Constant>
  {
    var (_, s1) :- Tag([0x00], s);
    Ok(Null, s1)
  }

  function TakeLvBool(s: Bytes): Result<Constant>
  {
    var (_, s1) :- Tag([0x01], s);
    var (b, s2) :- ReadU8(s1);
    Ok(Bool(b != 0), s2)
  }

  function TakeLvFloat(s: Bytes): Result<Constant>
  {
    var (_, s1) :- Tag([0x03], s);
    var (f, s2) :- ReadF64(false, s1);
    Ok(Number(f), s2)
  }

  /** `le_u8_minus_one`: a byte less one, which overflows, and so panics, on zero. */
  function LeU8MinusOne(s: Bytes): (r: Result<uint8>)
    ensures r.Ok? <==> |s| >= 1 && s[0] != 0
    ensures r.Ok? ==> r.value == s[0] - 1 && r.rest == s[1..]
    ensures r.Err? ==> (r.failure == Panic <==> |s| >= 1)
  {
    var (b, s1) :- ReadU8(s);
    if b == 0 then Err(Panic) else Ok(b - 1, s1)
  }

  /** A string constant: its size byte less one, then that many bytes; the escape of `load_string` is not read. */
  function TakeLvStr(s: Bytes): Result<Constant>
  {
    var (_, s1) :- Alt(Tag([0x04], s), Tag([0x14], s));
    var (n, s2) :- LeU8MinusOne(s1);
    var (data, s3) :- Take(n, s2);
    Ok(Str(data), s3)
  }

  /** `le_u64` reinterpreted `as i64`. */
  function TakeLvU64(s: Bytes): Result<Constant>
  {
    var (_, s1) :- Tag([0x13], s);
    var (n, s2) :- ReadInteger(8, false, s1);
    Ok(Number(n), s2)
  }

  /** A constant: the first of the tag readers that does not refuse. */
  function LoadConstant(s: Bytes): (r: Result<Constant>)
    ensures Shorter(r, s)
  {
    Alt(TakeLvNil(s), Alt(TakeLvBool(s), Alt(TakeLvFloat(s), Alt(TakeLvStr(s), TakeLvU64(s)))))
  }

  /**
   * The tag switch the readers amount to: each tag selects one reader, a
   * missing or unknown tag is refused, and a string size byte of zero panics.
   */
  function ConstantByTag(s: Bytes): Result<Constant>
  {
    if s == [] then Err(Reject)
    else
      var tag, body := s[0], s[1..];
      if tag == 0x00 then Ok(Null, body)
      else if tag == 0x01 then (var (b, rest) :- ReadU8(body); Ok(Bool(b != 0), rest))
      else if tag == 0x03 then (var (f, rest) :- ReadF64(false, body); Ok(Number(f), rest))
      else if tag == 0x04 || tag == 0x14 then
        (var (n, s2) :- LeU8MinusOne(body); var (data, rest) :- Take(n, s2); Ok(Str(data), rest))
      else if tag == 0x13 then (var (n, rest) :- ReadInteger(8, false, body); Ok(Number(n), rest))
      else Err(Reject)
  }

  /** The tags are disjoint: the `alt` of tag readers is the tag switch. */
  lemma ConstantIsTagSwitch(s: Bytes)
    ensures LoadConstant(s) == ConstantByTag(s)
  {
    if s != [] {
      assert s[..1] == [s[0]];
    }
  }

  /**
   * A string constant with a size byte of zero ends the whole decode with a
   * panic rather than a recoverable error: `le_u8_minus_one` subtracts one
   * from zero.
   */
  lemma ZeroSizeStringPanics(tag: uint8, rest: Bytes)
    requires tag == 0x04 || tag == 0x14
    ensures LoadConstant([tag, 0] + rest) == Err(Panic)
  {
    ConstantIsTagSwitch([tag, 0] + rest);
    assert ([tag, 0] + rest)[1..] == [0] + rest;
  }

  /** The constants this reader takes back from a writer. */
  predicate ConstantFits(c: Constant) {
    match c
    case Null => true
    case Bool(_) => true
    case Number(n) => n.Integer? || n.f.F64?
    case Str(bs) => |bs| + 1 < 0xFF
    case _ => false
  }

  /** The constant writer: tag, then payload; a string in the `load_string` layout. */
  function ConstantBytes(c: Constant): Bytes
  {
    match c
    case Null => [0x00]
    case Bool(b) => [0x01, if b then 1 else 0]
    case Number(Integer(i)) => [0x13] + LeBytes(if i < 0 then i + TWO_64 else i, 8)
    case Number(Float(f)) => [0x03] + LeBytes(f.Bits(), 8)
    case Str(bs) => [0x04] + StringBytes(bs)
    case _ => [0x00]
  }

  lemma ConstantRoundTrip(c: Constant, rest: Bytes)
    requires ConstantFits(c)
    ensures LoadConstant(ConstantBytes(c) + rest) == Ok(c, rest)
  {
    ConstantIsTagSwitch(ConstantBytes(c) + rest);
    ByTagRoundTrip(c, rest);
  }

  lemma ByTagRoundTrip(c: Constant, rest: Bytes)
    requires ConstantFits(c)
    ensures ConstantByTag(ConstantBytes(c) + rest) == Ok(c, rest)
  {
    var s := ConstantBytes(c) + rest;
    assert s[1..] == ConstantBytes(c)[1..] + rest;
    match c
    case Null =>
    case Bool(_) =>
      assert s[1..][1..] == rest;
    case Number(Integer(i)) =>
      EightBytesRoundTrip(if i < 0 then i + TWO_64 else i, s[1..], rest);
    case Number(Float(f)) =>
      EightBytesRoundTrip(f.Bits(), s[1..], rest);
    case Str(bs) =>
      ShortStringBody(bs, s[1..], rest);
  }

  /** A short string in the `load_string` layout: its size byte, then its bytes. */
  lemma ShortStringBody(bs: Bytes, t: Bytes, rest: Bytes)
    requires |bs| + 1 < 0xFF && t == StringBytes(bs) + rest
    ensures LeU8MinusOne(t) == Ok(|bs|, bs + rest)
    ensures Take(|bs|, bs + rest) == Ok(bs, rest)
  {
    assert t == [|bs| + 1] + (bs + rest);
    assert (bs + rest)[..|bs|] == bs;
    assert (bs + rest)[|bs|..] == rest;
  }

  /**
   * A string of 254 bytes or more, which `load_string` writes with the
   * escape byte, is not read back as a constant: its first size byte is
   * taken as the length 254.
   */
  lemma LongStringMisread(bs: Bytes, rest: Bytes)
    requires 0xFF <= |bs| + 1 < TWO_64
    ensures LoadConstant([0x04] + StringBytes(bs) + rest) != Ok(Str(bs), rest)
    ensures |StringBytes(bs) + rest| > 254 ==>
      LoadConstant([0x04] + StringBytes(bs) + rest) ==
        Ok(Str((StringBytes(bs) + rest)[1..255]), (StringBytes(bs) + rest)[255..])
  {
    var t := StringBytes(bs) + rest;
    Append([0x04], StringBytes(bs), rest);
    ConstantIsTagSwitch([0x04] + t);
    assert t[0] == 0xFF;
    assert |t| == 9 + |bs| + |rest|;
    EscapeAsSizeByte(t);
  }

  /** The string reader takes an escape byte `0xFF` as the length 254. */
  lemma EscapeAsSizeByte(t: Bytes)
    requires |t| >= 1 && t[0] == 0xFF
    ensures ConstantByTag([0x04] + t) == if |t| > 254 then Ok(Str(t[1..255]), t[255..]) else Err(Reject)
  {
    assert ([0x04] + t)[1..] == t;
    if |t| > 254 {
      assert t[1..][..254] == t[1..255];
      assert t[1..][254..] == t[255..];
    }
  }

  /** A string constant read with `load_string`, as the writer lays it out. */
  function TakeLvStrIntended(s: Bytes): Result<Constant>
  {
    var (_, s1) :- Alt(Tag([0x04], s), Tag([0x14], s));
    var (data, s2) :- LoadString(s1);
    Ok(Str(data), s2)
  }

  /** The string constants the intended reading takes back: every length. */
  lemma IntendedStringRoundTrip(bs: Bytes, rest: Bytes)
    requires StringFits(bs)
    ensures TakeLvStrIntended([0x04] + StringBytes(bs) + rest) == Ok(Str(bs), rest)
  {
    var s := [0x04] + StringBytes(bs) + rest;
    assert s[..1] == [0x04];
    assert s[1..] == StringBytes(bs) + rest;
    StringRoundTrip(bs, rest);
  }

  predicate ConstantsFit(h: Header, cs: seq<Constant>) {
    FitsInt(h, |cs|) && forall i :: 0 <= i < |cs| ==> ConstantFits(cs[i])
  }

  lemma ConstantsRoundTrip(h: Header, cs: seq<Constant>, rest: Bytes)
    requires ConstantsFit(h, cs)
    ensures CountedList(h, LoadConstant, ListBytes(h, cs, ConstantBytes) + rest) == Ok(cs, rest)
  {
    forall i, t | 0 <= i < |cs|
      ensures LoadConstant(ConstantBytes(cs[i]) + t) == Ok(cs[i], t)
    {
      ConstantRoundTrip(cs[i], t);
    }
    CountedListRoundTrip(h, LoadConstant, ConstantBytes, cs, rest);
  }

  // ----- one prototype (src/lua53.rs:30-127) -----

  /** The name and the fixed head of a prototype. */
  datatype ChunkHead = ChunkHead(
    name: Bytes, lineDefined: uint64, lastLineDefined: uint64, numParams: uint8, isVararg: uint8, maxStack: uint8)

  function ReadChunkHead(h: Header, s: Bytes): (r: Result<ChunkHead>)
    ensures Shorter(r, s)
  {
    var (name, s1) :- LoadString(s);
    var (lineDefined, s2) :- LuaInt(h, s1);
    var (lastLineDefined, s3) :- LuaInt(h, s2);
    var (numParams, s4) :- ReadU8(s3);
    var (isVararg, s5) :- ReadU8(s4);
    var (maxStack, s6) :- ReadU8(s5);
    Ok(ChunkHead(name, lineDefined, lastLineDefined, numParams, isVararg, maxStack), s6)
  }

  /** The source lines, locals and upvalue names. */
  function DebugInfo(h: Header, s: Bytes): (r: Result<Lua51.Debug>)
    ensures Shorter(r, s)
  {
    var (sourceLines, s1) :- CountedListWith(Lua51.SourceLine, h, s);
    var (locals, s2) :- CountedListWith(LuaLocal, h, s1);
    var (upvalueNames, s3) :- CountedList(h, LoadString, s2);
    Ok(Lua51.Debug(sourceLines, locals, upvalueNames), s3)
  }

  /**
   * `lua_chunk`: the name and head, then the instructions, constants,
   * upvalues, nested prototypes, source lines, locals and upvalue names.
   * The upvalue count is the length of the upvalue list truncated to a byte.
   */
  function DecodeChunk(h: Header, s: Bytes): (r: Result<Chunk>)
    ensures Shorter(r, s)
    ensures r.Ok? ==> r.value.numUpvalues == |r.value.upvalueInfos| % 256
    ensures r.Ok? ==> r.value.flags == 0 && r.value.numConstants == []
    decreases |s|, 0, 0
  {
    var (head, s1) :- ReadChunkHead(h, s);
    var (instructions, s2) :- CountedListWith(Lua51.Instruction, h, s1);
    var (constants, s3) :- CountedList(h, LoadConstant, s2);
    var (upvalues, s4) :- CountedList(h, Lua52.LoadUpvalue, s3);
    var (prototypes, s5) :- Prototypes(h, s4);
    var (debug, s6) :- DebugInfo(h, s5);
    Ok(Chunk(head.name, head.lineDefined, head.lastLineDefined, |upvalues| % 256, head.numParams,
             head.maxStack, 0, VarargInfo(head.isVararg), instructions, constants, [], prototypes,
             debug.sourceLines, debug.locals, upvalues, debug.upvalueNames), s6)
  }

  /** The nested prototypes: a count, then that many prototypes. */
  function Prototypes(h: Header, s: Bytes): (r: Result<seq<Chunk>>)
    ensures Shorter(r, s)
    decreases |s|, 2, 0
  {
    var (n, s1) :- LuaInt(h, s);
    ProtoList(h, n, s1)
  }

  function ProtoList(h: Header, n: nat, s: Bytes): (r: Result<seq<Chunk>>)
    ensures NoLonger(r, s)
    ensures r.Ok? ==> |r.value| == n
    decreases |s|, 1, n
  {
    if n == 0 then Ok([], s)
    else
      var (c, s1) :- DecodeChunk(h, s);
      var (cs, s2) :- ProtoList(h, n - 1, s1);
      Ok([c] + cs, s2)
  }

  // ----- the writer the prototype decoder inverts -----

  predicate DebugFits(h: Header, d: Lua51.Debug) {
    && FitsInt(h, |d.sourceLines|) && FitsInt(h, |d.locals|) && FitsInt(h, |d.upvalueNames|)
    && (forall i :: 0 <= i < |d.sourceLines| ==> FitsInt(h, d.sourceLines[i].0) && d.sourceLines[i].1 == 0)
    && (forall i :: 0 <= i < |d.locals| ==> LocalFits(h, d.locals[i]))
    && (forall i :: 0 <= i < |d.upvalueNames| ==> StringFits(d.upvalueNames[i]))
  }

  function DebugBytes(h: Header, d: Lua51.Debug): Bytes
  {
    ListBytesWith(h, d.sourceLines, Lua51.SourceLineBytes) +
    (ListBytesWith(h, d.locals, LocalBytes) +
     ListBytes(h, d.upvalueNames, StringBytes))
  }

  lemma LocalsRoundTrip(h: Header, ls: seq<Local>, rest: Bytes)
    requires FitsInt(h, |ls|) && forall i :: 0 <= i < |ls| ==> LocalFits(h, ls[i])
    ensures CountedListWith(LuaLocal, h, ListBytesWith(h, ls, LocalBytes) + rest) == Ok(ls, rest)
  {
    forall i, t | 0 <= i < |ls|
      ensures LuaLocal(h, LocalBytes(h, ls[i]) + t) == Ok(ls[i], t)
    {
      LocalRoundTrip(h, ls[i], t);
    }
    CountedListWithRoundTrip(h, LuaLocal, LocalBytes, ls, rest);
  }

  lemma NamesRoundTrip(h: Header, ns: seq<Bytes>, rest: Bytes)
    requires FitsInt(h, |ns|) && forall i :: 0 <= i < |ns| ==> StringFits(ns[i])
    ensures CountedList(h, LoadString, ListBytes(h, ns, StringBytes) + rest) == Ok(ns, rest)
  {
    forall i, t | 0 <= i < |ns|
      ensures LoadString(StringBytes(ns[i]) + t) == Ok(ns[i], t)
    {
      StringRoundTrip(ns[i], t);
    }
    CountedListRoundTrip(h, LoadString, StringBytes, ns, rest);
  }

  lemma DebugRoundTrip(h: Header, d: Lua51.Debug, rest: Bytes)
    requires DebugFits(h, d)
    ensures DebugInfo(h, DebugBytes(h, d) + rest) == Ok(d, rest)
  {
    var t2 := ListBytes(h, d.upvalueNames, StringBytes) + rest;
    var t1 := ListBytesWith(h, d.locals, LocalBytes) + t2;
    Append(ListBytesWith(h, d.locals, LocalBytes), ListBytes(h, d.upvalueNames, StringBytes), rest);
    Append(ListBytesWith(h, d.sourceLines, Lua51.SourceLineBytes),
           ListBytesWith(h, d.locals, LocalBytes) + ListBytes(h, d.upvalueNames, StringBytes), rest);
    Lua51.SourceLinesRoundTrip(h, d.sourceLines, t1);
    LocalsRoundTrip(h, d.locals, t2);
    NamesRoundTrip(h, d.upvalueNames, rest);
  }

  /** The fields of one prototype a writer can emit under `h`. */
  predicate PartsFit(h: Header, c: Chunk) {
    && h.instructionSize == 4
    && StringFits(c.name) && FitsInt(h, c.lineDefined) && FitsInt(h, c.lastLineDefined)
    && c.numUpvalues == |c.upvalueInfos| % 256 && c.flags == 0 && c.numConstants == []
    && FitsInt(h, |c.instructions|) && ConstantsFit(h, c.constants)
    && FitsInt(h, |c.upvalueInfos|) && (forall i :: 0 <= i < |c.upvalueInfos| ==> c.upvalueInfos[i].kind == 0)
    && FitsInt(h, |c.prototypes|) && DebugFits(h, Lua51.ChunkDebug(c))
  }

  /** The prototypes a writer can emit: `PartsFit` for the prototype and, recursively, its nested ones. */
  predicate ChunkFits(h: Header, c: Chunk)
    decreases c
  {
    PartsFit(h, c) && forall i :: 0 <= i < |c.prototypes| ==> ChunkFits(h, c.prototypes[i])
  }

  function HeadOf(c: Chunk): ChunkHead
  {
    ChunkHead(c.name, c.lineDefined, c.lastLineDefined, c.numParams, VarargByte(c.isVararg), c.maxStack)
  }

  function HeadBytes(h: Header, c: Chunk): Bytes
  {
    StringBytes(c.name) + (IntBytes(h, c.lineDefined) + (IntBytes(h, c.lastLineDefined)
    + [c.numParams, VarargByte(c.isVararg), c.maxStack]))
  }

  function ChunkBytes(h: Header, c: Chunk): Bytes
    decreases c, 0
  {
    HeadBytes(h, c) +
    (ListBytesWith(h, c.instructions, Lua51.InstructionBytes) +
    (ListBytes(h, c.constants, ConstantBytes) +
    (ListBytes(h, c.upvalueInfos, Lua52.UpvalueBytes) +
    (IntBytes(h, |c.prototypes|) +
    (ProtoListBytes(h, c.prototypes) +
     DebugBytes(h, Lua51.ChunkDebug(c)))))))
  }

  function ProtoListBytes(h: Header, cs: seq<Chunk>): Bytes
    decreases cs, 1
  {
    if cs == [] then [] else ChunkBytes(h, cs[0]) + ProtoListBytes(h, cs[1..])
  }

  lemma HeadRoundTrip(h: Header, c: Chunk, rest: Bytes)
    requires StringFits(c.name) && FitsInt(h, c.lineDefined) && FitsInt(h, c.lastLineDefined)
    ensures ReadChunkHead(h, HeadBytes(h, c) + rest) == Ok(HeadOf(c), rest)
  {
    var fixed := [c.numParams, VarargByte(c.isVararg), c.maxStack];
    var bytes := fixed + rest;
    var t2 := IntBytes(h, c.lastLineDefined) + bytes;
    var t1 := IntBytes(h, c.lineDefined) + t2;
    Append(IntBytes(h, c.lastLineDefined), fixed, rest);
    Append(IntBytes(h, c.lineDefined), IntBytes(h, c.lastLineDefined) + fixed, rest);
    Append(StringBytes(c.name), IntBytes(h, c.lineDefined) + (IntBytes(h, c.lastLineDefined) + fixed), rest);
    StringRoundTrip(c.name, t1);
    IntRoundTrip(h, c.lineDefined, t2);
    IntRoundTrip(h, c.lastLineDefined, bytes);
    assert bytes[1..][1..][1..] == rest;
  }

  /** `lua_chunk` reads back every prototype a writer can emit, nested prototypes included. */
  lemma {:induction false} ChunkRoundTrip(h: Header, c: Chunk, rest: Bytes)
    requires ChunkFits(h, c)
    ensures DecodeChunk(h, ChunkBytes(h, c) + rest) == Ok(c, rest)
    decreases c, 0
  {
    ProtoListRoundTrip(h, c.prototypes, DebugBytes(h, Lua51.ChunkDebug(c)) + rest);
    ChunkOfParts(h, c, rest);
  }

  /** A prototype whose nested prototypes read back reads back whole. */
  lemma ChunkOfParts(h: Header, c: Chunk, rest: Bytes)
    requires PartsFit(h, c)
    requires ProtoList(h, |c.prototypes|, ProtoListBytes(h, c.prototypes) + (DebugBytes(h, Lua51.ChunkDebug(c)) + rest))
             == Ok(c.prototypes, DebugBytes(h, Lua51.ChunkDebug(c)) + rest)
    ensures DecodeChunk(h, ChunkBytes(h, c) + rest) == Ok(c, rest)
  {
    var t6 := DebugBytes(h, Lua51.ChunkDebug(c)) + rest;
    var t5 := ProtoListBytes(h, c.prototypes) + t6;
    var t4 := IntBytes(h, |c.prototypes|) + t5;
    var t3 := ListBytes(h, c.upvalueInfos, Lua52.UpvalueBytes) + t4;
    var t2 := ListBytes(h, c.constants, ConstantBytes) + t3;
    var t1 := ListBytesWith(h, c.instructions, Lua51.InstructionBytes) + t2;
    ChunkBytesSplit(h, c, rest);
    PartsRoundTrip(h, c, t5, rest);
    DecodeChunkSteps(h, HeadBytes(h, c) + t1, t1, t2, t3, t4, t5, t6, rest,
      HeadOf(c), c.instructions, c.constants, c.upvalueInfos, c.prototypes, Lua51.ChunkDebug(c));
  }

  /** The head and the three lists before the nested prototypes read back. */
  lemma FrontRoundTrip(h: Header, c: Chunk, t4: Bytes)
    requires PartsFit(h, c)
    ensures var t3 := ListBytes(h, c.upvalueInfos, Lua52.UpvalueBytes) + t4;
            var t2 := ListBytes(h, c.constants, ConstantBytes) + t3;
            var t1 := ListBytesWith(h, c.instructions, Lua51.InstructionBytes) + t2;
            && ReadChunkHead(h, HeadBytes(h, c) + t1) == Ok(HeadOf(c), t1)
            && CountedListWith(Lua51.Instruction, h, t1) == Ok(c.instructions, t2)
            && CountedList(h, LoadConstant, t2) == Ok(c.constants, t3)
            && CountedList(h, Lua52.LoadUpvalue, t3) == Ok(c.upvalueInfos, t4)
  {
    var t3 := ListBytes(h, c.upvalueInfos, Lua52.UpvalueBytes) + t4;
    var t2 := ListBytes(h, c.constants, ConstantBytes) + t3;
    var t1 := ListBytesWith(h, c.instructions, Lua51.InstructionBytes) + t2;
    HeadRoundTrip(h, c, t1);
    Lua51.InstructionsRoundTrip(h, c.instructions, t2);
    ConstantsRoundTrip(h, c.constants, t3);
    Lua52.UpvaluesRoundTrip(h, c.upvalueInfos, t4);
  }

  /**
   * Every part of a prototype but its nested prototypes reads back, and the
   * upvalue count, flags and vararg information are the ones `lua_chunk`
   * rebuilds.
   */
  lemma PartsRoundTrip(h: Header, c: Chunk, t5: Bytes, rest: Bytes)
    requires PartsFit(h, c)
    ensures var t4 := IntBytes(h, |c.prototypes|) + t5;
            var t3 := ListBytes(h, c.upvalueInfos, Lua52.UpvalueBytes) + t4;
            var t2 := ListBytes(h, c.constants, ConstantBytes) + t3;
            var t1 := ListBytesWith(h, c.instructions, Lua51.InstructionBytes) + t2;
            && ReadChunkHead(h, HeadBytes(h, c) + t1) == Ok(HeadOf(c), t1)
            && CountedListWith(Lua51.Instruction, h, t1) == Ok(c.instructions, t2)
            && CountedList(h, LoadConstant, t2) == Ok(c.constants, t3)
            && CountedList(h, Lua52.LoadUpvalue, t3) == Ok(c.upvalueInfos, t4)
            && LuaInt(h, t4) == Ok(|c.prototypes|, t5)
            && DebugInfo(h, DebugBytes(h, Lua51.ChunkDebug(c)) + rest) == Ok(Lua51.ChunkDebug(c), rest)
            && c == Chunk(c.name, c.lineDefined, c.lastLineDefined, |c.upvalueInfos| % 256, c.numParams,
                          c.maxStack, 0, VarargInfo(VarargByte(c.isVararg)), c.instructions, c.constants, [],
                          c.prototypes, c.sourceLines, c.locals, c.upvalueInfos, c.upvalueNames)
  {
    var t4 := IntBytes(h, |c.prototypes|) + t5;
    FrontRoundTrip(h, c, t4);
    IntRoundTrip(h, |c.prototypes|, t5);
    DebugRoundTrip(h, Lua51.ChunkDebug(c), rest);
    VarargRoundTrip(c.isVararg, 0);
  }

  /** The encoding of a prototype, as the sequence of parts `lua_chunk` reads one after another. */
  lemma ChunkBytesSplit(h: Header, c: Chunk, rest: Bytes)
    ensures ChunkBytes(h, c) + rest ==
      HeadBytes(h, c) + (ListBytesWith(h, c.instructions, Lua51.InstructionBytes) +
      (ListBytes(h, c.constants, ConstantBytes) + (ListBytes(h, c.upvalueInfos, Lua52.UpvalueBytes) +
      (IntBytes(h, |c.prototypes|) + (ProtoListBytes(h, c.prototypes) + (DebugBytes(h, Lua51.ChunkDebug(c)) + rest))))))
  {
    AppendSeven(HeadBytes(h, c), ListBytesWith(h, c.instructions, Lua51.InstructionBytes),
      ListBytes(h, c.constants, ConstantBytes), ListBytes(h, c.upvalueInfos, Lua52.UpvalueBytes),
      IntBytes(h, |c.prototypes|), ProtoListBytes(h, c.prototypes), DebugBytes(h, Lua51.ChunkDebug(c)), rest);
  }

  /** `lua_chunk` on an input whose parts each read successfully in turn. */
  lemma DecodeChunkSteps(h: Header, s: Bytes, s1: Bytes, s2: Bytes, s3: Bytes, s4: Bytes, s5: Bytes, s6: Bytes,
                         s7: Bytes, head: ChunkHead, instructions: seq<uint32>, constants: seq<Constant>,
                         upvalues: seq<UpVal>, prototypes: seq<Chunk>, debug: Lua51.Debug)
    requires ReadChunkHead(h, s) == Ok(head, s1)
    requires CountedListWith(Lua51.Instruction, h, s1) == Ok(instructions, s2)
    requires CountedList(h, LoadConstant, s2) == Ok(constants, s3)
    requires CountedList(h, Lua52.LoadUpvalue, s3) == Ok(upvalues, s4)
    requires LuaInt(h, s4) == Ok(|prototypes|, s5)
    requires ProtoList(h, |prototypes|, s5) == Ok(prototypes, s6)
    requires DebugInfo(h, s6) == Ok(debug, s7)
    ensures DecodeChunk(h, s) ==
      Ok(Chunk(head.name, head.lineDefined, head.lastLineDefined, |upvalues| % 256, head.numParams,
               head.maxStack, 0, VarargInfo(head.isVararg), instructions, constants, [], prototypes,
               debug.sourceLines, debug.locals, upvalues, debug.upvalueNames), s7)
  {
  }

  /** `count` of prototypes: the first prototype, then the others. */
  lemma ProtoListSteps(h: Header, cs: seq<Chunk>, s: Bytes, s1: Bytes, s2: Bytes)
    requires cs != []
    requires DecodeChunk(h, s) == Ok(cs[0], s1)
    requires ProtoList(h, |cs| - 1, s1) == Ok(cs[1..], s2)
    ensures ProtoList(h, |cs|, s) == Ok(cs, s2)
  {
    ConsSplit(cs);
  }

  lemma {:induction false} ProtoListRoundTrip(h: Header, cs: seq<Chunk>, rest: Bytes)
    requires forall i :: 0 <= i < |cs| ==> ChunkFits(h, cs[i])
    ensures ProtoList(h, |cs|, ProtoListBytes(h, cs) + rest) == Ok(cs, rest)
    decreases cs, 1
  {
    if cs != [] {
      var tail := ProtoListBytes(h, cs[1..]) + rest;
      Append(ChunkBytes(h, cs[0]), ProtoListBytes(h, cs[1..]), rest);
      ChunkRoundTrip(h, cs[0], tail);
      RestFit(h, cs);
      ProtoListRoundTrip(h, cs[1..], rest);
      ProtoListSteps(h, cs, ChunkBytes(h, cs[0]) + tail, tail, rest);
    } else {
      assert ProtoList(h, 0, ProtoListBytes(h, cs) + rest) == Ok([], rest);
    }
  }

  lemma RestFit(h: Header, cs: seq<Chunk>)
    requires cs != [] && forall i :: 0 <= i < |cs| ==> ChunkFits(h, cs[i])
    ensures forall i :: 0 <= i < |cs[1..]| ==> ChunkFits(h, cs[1..][i])
  {
    assert forall i :: 0 <= i < |cs[1..]| ==> cs[1..][i] == cs[i + 1];
  }
}

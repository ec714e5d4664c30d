/**
 * The Lua 5.1 prototype decoder (src/lua51.rs). Integers and sizes have the
 * widths the header declares; a string is a `size_t` length followed by that
 * many bytes, the last of them the terminating NUL; a prototype is its name,
 * a fixed head and six counted lists, the nested prototypes among them.
 */
module Lua51 {
  import opened LuaTypes
  import opened Primitives

  // ----- strings and locals (src/lua51.rs:3-18) -----

  /** `lua_string`: a `size_t` length, that many bytes, and the last of them dropped. */
  function LuaString(h: Header, s: Bytes): (r: Result<Bytes>)
    ensures Shorter(r, s)
    ensures r.Err? ==> r.failure == Reject
  {
    var (n, s1) :- LuaSizeT(h, s);
    var (data, s2) :- Take(n, s1);
    Ok(if data == [] then [] else data[..|data| - 1], s2)
  }

  /** The writer of a present string: its length with the terminator, its bytes, the terminator. */
  function StringBytes(h: Header, bs: Bytes): Bytes
  {
    SizeBytes(h, |bs| + 1) + (bs + [0])
  }

  predicate StringFits(h: Header, bs: Bytes) {
    FitsSize(h, |bs| + 1)
  }

  /** Whatever the terminating byte, the bytes before it come back. */
  lemma TerminatedRoundTrip(h: Header, bs: Bytes, last: uint8, rest: Bytes)
    requires StringFits(h, bs)
    ensures LuaString(h, SizeBytes(h, |bs| + 1) + (bs + [last]) + rest) == Ok(bs, rest)
  {
    var body := bs + [last];
    Append(SizeBytes(h, |bs| + 1), body, rest);
    SizeRoundTrip(h, |bs| + 1, body + rest);
    assert (body + rest)[..|body|] == body;
    assert (body + rest)[|body|..] == rest;
    assert body[..|body| - 1] == bs;
  }

  lemma StringRoundTrip(h: Header, bs: Bytes, rest: Bytes)
    requires StringFits(h, bs)
    ensures LuaString(h, StringBytes(h, bs) + rest) == Ok(bs, rest)
  {
    TerminatedRoundTrip(h, bs, 0, rest);
  }

  /** The size zero a writer uses for an absent string reads as the empty string. */
  lemma StringAbsent(h: Header, rest: Bytes)
    requires IsWidth(h.sizeTSize)
    ensures LuaString(h, SizeBytes(h, 0) + rest) == Ok([], rest)
  {
    SizeRoundTrip(h, 0, rest);
  }

  /** `lua_local`: a name and two pcs; the register is the default zero. */
  function LuaLocal(h: Header, s: Bytes): (r: Result<Local>)
    ensures Shorter(r, s)
    ensures r.Ok? ==> r.value.reg == 0
    ensures r.Err? ==> r.failure == Reject
  {
    var (name, s1) :- LuaString(h, s);
    var (startPc, s2) :- LuaInt(h, s1);
    var (endPc, s3) :- LuaInt(h, s2);
    Ok(Local(name, startPc, endPc, 0), s3)
  }

  predicate LocalFits(h: Header, l: Local) {
    StringFits(h, l.name) && FitsInt(h, l.startPc) && FitsInt(h, l.endPc) && l.reg == 0
  }

  function LocalBytes(h: Header, l: Local): Bytes
  {
    StringBytes(h, l.name) + (IntBytes(h, l.startPc) + IntBytes(h, l.endPc))
  }

  lemma LocalRoundTrip(h: Header, l: Local, rest: Bytes)
    requires LocalFits(h, l)
    ensures LuaLocal(h, LocalBytes(h, l) + rest) == Ok(l, rest)
  {
    var t2 := IntBytes(h, l.endPc) + rest;
    var t1 := IntBytes(h, l.startPc) + t2;
    Append(IntBytes(h, l.startPc), IntBytes(h, l.endPc), rest);
    Append(StringBytes(h, l.name), IntBytes(h, l.startPc) + IntBytes(h, l.endPc), rest);
    StringRoundTrip(h, l.name, t1);
    IntRoundTrip(h, l.startPc, t2);
    IntRoundTrip(h, l.endPc, rest);
  }

  // ----- the lists of a prototype (src/lua51.rs:36-74) -----

  /** One source line entry: a `lua_int` cut to 32 bits by `as u32`, paired with zero. */
  function SourceLine(h: Header, s: Bytes): (r: Result<(uint32, uint32)>)
    ensures Shorter(r, s)
    ensures r.Ok? ==> r.value.1 == 0
    ensures r.Err? ==> r.failure == Reject
  {
    var (n, s1) :- LuaInt(h, s);
    Ok((n % TWO_32, 0), s1)
  }

  function SourceLineBytes(h: Header, p: (uint32, uint32)): Bytes
  {
    IntBytes(h, p.0)
  }

  /** Any integer the header's width holds comes back cut to its low 32 bits. */
  lemma SourceLineTruncates(h: Header, v: nat, rest: Bytes)
    requires FitsInt(h, v)
    ensures SourceLine(h, IntBytes(h, v) + rest) == Ok((v % TWO_32, 0), rest)
  {
    IntRoundTrip(h, v, rest);
  }

  lemma SourceLineRoundTrip(h: Header, p: (uint32, uint32), rest: Bytes)
    requires FitsInt(h, p.0) && p.1 == 0
    ensures SourceLine(h, SourceLineBytes(h, p) + rest) == Ok(p, rest)
  {
    SourceLineTruncates(h, p.0, rest);
  }

  /** One instruction: a 32-bit word in the header's byte order, and only when instructions are four bytes wide. */
  function Instruction(h: Header, s: Bytes): (r: Result<uint32>)
    ensures r.Ok? <==> h.instructionSize == 4 && 4 <= |s|
    ensures r.Ok? ==> r.rest == s[4..] && r.value == UIntValue(s[..4], h.bigEndian)
    ensures r.Err? ==> r.failure == Reject
  {
    Must(h.instructionSize == 4, ReadU32(h.bigEndian, s))
  }

  function InstructionBytes(h: Header, w: uint32): Bytes
  {
    UIntBytes(w, 4, h.bigEndian)
  }

  lemma InstructionRoundTrip(h: Header, w: uint32, rest: Bytes)
    requires h.instructionSize == 4
    ensures Instruction(h, InstructionBytes(h, w) + rest) == Ok(w, rest)
  {
    var u := InstructionBytes(h, w) + rest;
    assert u[..4] == InstructionBytes(h, w);
    assert u[4..] == rest;
    UIntRoundTrip(w, 4, h.bigEndian);
  }

  /**
   * Under a header whose instructions are not four bytes wide only an empty
   * instruction list reads; any other count is refused.
   */
  lemma InstructionsNeedWordSize(h: Header, n: nat, s: Bytes)
    requires h.instructionSize != 4
    ensures ManyWith(Instruction, h, n, s) == (if n == 0 then Ok([], s) else Err(Reject))
  {
  }

  lemma InstructionsRoundTrip(h: Header, ws: seq<uint32>, rest: Bytes)
    requires h.instructionSize == 4 && FitsInt(h, |ws|)
    ensures CountedListWith(Instruction, h, ListBytesWith(h, ws, InstructionBytes) + rest) == Ok(ws, rest)
  {
    forall i, t | 0 <= i < |ws|
      ensures Instruction(h, InstructionBytes(h, ws[i]) + t) == Ok(ws[i], t)
    {
      InstructionRoundTrip(h, ws[i], t);
    }
    CountedListWithRoundTrip(h, Instruction, InstructionBytes, ws, rest);
  }

  // ----- constants (src/lua51.rs:43-57) -----

  /** A constant: a tag byte selects nil, a boolean byte, a `lua_number` or a `lua_string`; any other tag is refused. */
  function LoadConstant(h: Header, s: Bytes): (r: Result<Constant>)
    ensures Shorter(r, s)
    ensures r.Err? ==> r.failure == Reject
    ensures r.Ok? ==> |s| >= 1 && s[0] in {0, 1, 3, 4}
    ensures r.Ok? && s[0] == 0 ==> r.value == Null && r.rest == s[1..]
    ensures r.Ok? && s[0] == 1 ==> |s| >= 2 && r.value == Bool(s[1] != 0) && r.rest == s[2..]
  {
    var (tag, s1) :- ReadU8(s);
    if tag == 0 then Ok(Null, s1)
    else if tag == 1 then (var (b, s2) :- ReadU8(s1); Ok(Bool(b != 0), s2))
    else if tag == 3 then (var (n, s2) :- LuaNumber(h, s1); Ok(Number(n), s2))
    else if tag == 4 then (var (data, s2) :- LuaString(h, s1); Ok(Str(data), s2))
    else Err(Reject)
  }

  /** The constants a writer can emit under `h`. */
  predicate ConstantFits(h: Header, c: Constant) {
    match c
    case Null => true
    case Bool(_) => true
    case Number(n) => FitsNumber(h, n)
    case Str(bs) => StringFits(h, bs)
    case _ => false
  }

  function ConstantBytes(h: Header, c: Constant): Bytes
    requires ConstantFits(h, c)
  {
    match c
    case Null => [0]
    case Bool(b) => [1, if b then 1 else 0]
    case Number(n) => [3] + NumberBytes(h, n)
    case Str(bs) => [4] + StringBytes(h, bs)
  }

  /** The constant writer, total: a constant the format cannot hold is written as nil. */
  function EmitConstant(h: Header, c: Constant): Bytes
  {
    if ConstantFits(h, c) then ConstantBytes(h, c) else [0]
  }

  lemma ConstantRoundTrip(h: Header, c: Constant, rest: Bytes)
    requires ConstantFits(h, c)
    ensures LoadConstant(h, ConstantBytes(h, c) + rest) == Ok(c, rest)
  {
    match c
    case Null =>
      assert (ConstantBytes(h, c) + rest)[1..] == rest;
    case Bool(_) =>
      var s := ConstantBytes(h, c) + rest;
      assert s[1..] == [s[1]] + rest;
      assert s[1..][1..] == rest;
    case Number(n) =>
      NumberConstantRoundTrip(h, n, rest);
    case Str(bs) =>
      StringConstantRoundTrip(h, bs, rest);
  }

  lemma NumberConstantRoundTrip(h: Header, n: LuaTypes.Number, rest: Bytes)
    requires FitsNumber(h, n)
    ensures LoadConstant(h, [3] + NumberBytes(h, n) + rest) == Ok(Number(n), rest)
  {
    assert ([3] + NumberBytes(h, n) + rest)[1..] == NumberBytes(h, n) + rest;
    NumberRoundTrip(h, n, rest);
  }

  lemma StringConstantRoundTrip(h: Header, bs: Bytes, rest: Bytes)
    requires StringFits(h, bs)
    ensures LoadConstant(h, [4] + StringBytes(h, bs) + rest) == Ok(Str(bs), rest)
  {
    assert ([4] + StringBytes(h, bs) + rest)[1..] == StringBytes(h, bs) + rest;
    StringRoundTrip(h, bs, rest);
  }

  lemma UnknownTagRefused(h: Header, tag: uint8, rest: Bytes)
    requires tag !in {0, 1, 3, 4}
    ensures LoadConstant(h, [tag] + rest) == Err(Reject)
  {
    assert ([tag] + rest)[1..] == rest;
  }

  predicate ConstantsFit(h: Header, cs: seq<Constant>) {
    FitsInt(h, |cs|) && forall i :: 0 <= i < |cs| ==> ConstantFits(h, cs[i])
  }

  lemma ConstantsRoundTrip(h: Header, cs: seq<Constant>, rest: Bytes)
    requires ConstantsFit(h, cs)
    ensures CountedListWith(LoadConstant, h, ListBytesWith(h, cs, EmitConstant) + rest) == Ok(cs, rest)
  {
    forall i, t | 0 <= i < |cs|
      ensures LoadConstant(h, EmitConstant(h, cs[i]) + t) == Ok(cs[i], t)
    {
      ConstantRoundTrip(h, cs[i], t);
    }
    CountedListWithRoundTrip(h, LoadConstant, EmitConstant, cs, rest);
  }

  // ----- one prototype (src/lua51.rs:20-107) -----

  /** The name and the fixed head of a prototype. */
  datatype ChunkHead = ChunkHead(
    name: Bytes, lineDefined: uint64, lastLineDefined: uint64,
    numUpvalues: uint8, numParams: uint8, isVararg: uint8, maxStack: uint8)

  function ReadChunkHead(h: Header, s: Bytes): (r: Result<ChunkHead>)
    ensures Shorter(r, s)
  {
    var (name, s1) :- LuaString(h, s);
    var (lineDefined, s2) :- LuaInt(h, s1);
    var (lastLineDefined, s3) :- LuaInt(h, s2);
    var (numUpvalues, s4) :- ReadU8(s3);
    var (numParams, s5) :- ReadU8(s4);
    var (isVararg, s6) :- ReadU8(s5);
    var (maxStack, s7) :- ReadU8(s6);
    Ok(ChunkHead(name, lineDefined, lastLineDefined, numUpvalues, numParams, isVararg, maxStack), s7)
  }

  /** The lists after the nested prototypes: all of them debug information. */
  datatype Debug = Debug(sourceLines: seq<(uint32, uint32)>, locals: seq<Local>, upvalueNames: seq<Bytes>)

  function DebugInfo(h: Header, s: Bytes): (r: Result<Debug>)
    ensures Shorter(r, s)
  {
    var (sourceLines, s1) :- CountedListWith(SourceLine, h, s);
    var (locals, s2) :- CountedListWith(LuaLocal, h, s1);
    var (upvalueNames, s3) :- CountedListWith(LuaString, h, s2);
    Ok(Debug(sourceLines, locals, upvalueNames), s3)
  }

  /**
   * `lua_chunk`: the name and head, then the instructions, constants,
   * nested prototypes, source lines, locals and upvalue names, each list a
   * `lua_int` count and its elements. The upvalue count is the head's byte;
   * this format has no upvalue descriptions.
   */
  function DecodeChunk(h: Header, s: Bytes): (r: Result<Chunk>)
    ensures Shorter(r, s)
    ensures r.Ok? ==> r.value.upvalueInfos == [] && r.value.flags == 0 && r.value.numConstants == []
    decreases |s|, 0, 0
  {
    var (head, s1) :- ReadChunkHead(h, s);
    var (instructions, s2) :- CountedListWith(Instruction, h, s1);
    var (constants, s3) :- CountedListWith(LoadConstant, h, s2);
    var (prototypes, s4) :- Prototypes(h, s3);
    var (debug, s5) :- DebugInfo(h, s4);
    Ok(Chunk(head.name, head.lineDefined, head.lastLineDefined, head.numUpvalues, head.numParams,
             head.maxStack, 0, VarargInfo(head.isVararg), instructions, constants, [], prototypes,
             debug.sourceLines, debug.locals, [], debug.upvalueNames), s5)
  }

  /** The nested prototypes: a count, then that many prototypes. */
  function Prototypes(h: Header, s: Bytes): (r: Result<seq<Chunk>>)
    ensures Shorter(r, s)
    decreases |s|, 2, 0
  {
    var (n, s1) :- LuaInt(h, s);
    ProtoList(h, n, s1)
  }

  function ProtoList(h: Header, n: nat, s: Bytes): (r: Result<seq<Chunk>>)
    ensures NoLonger(r, s)
    ensures r.Ok? ==> |r.value| == n
    decreases |s|, 1, n
  {
    if n == 0 then Ok([], s)
    else
      var (c, s1) :- DecodeChunk(h, s);
      var (cs, s2) :- ProtoList(h, n - 1, s1);
      Ok([c] + cs, s2)
  }

  // ----- the writer the prototype decoder inverts -----

  predicate DebugFits(h: Header, d: Debug) {
    && FitsInt(h, |d.sourceLines|) && FitsInt(h, |d.locals|) && FitsInt(h, |d.upvalueNames|)
    && (forall i :: 0 <= i < |d.sourceLines| ==> FitsInt(h, d.sourceLines[i].0) && d.sourceLines[i].1 == 0)
    && (forall i :: 0 <= i < |d.locals| ==> LocalFits(h, d.locals[i]))
    && (forall i :: 0 <= i < |d.upvalueNames| ==> StringFits(h, d.upvalueNames[i]))
  }

  function DebugBytes(h: Header, d: Debug): Bytes
  {
    ListBytesWith(h, d.sourceLines, SourceLineBytes) +
    (ListBytesWith(h, d.locals, LocalBytes) +
     ListBytesWith(h, d.upvalueNames, StringBytes))
  }

  lemma DebugRoundTrip(h: Header, d: Debug, rest: Bytes)
    requires DebugFits(h, d)
    ensures DebugInfo(h, DebugBytes(h, d) + rest) == Ok(d, rest)
  {
    var t2 := ListBytesWith(h, d.upvalueNames, StringBytes) + rest;
    var t1 := ListBytesWith(h, d.locals, LocalBytes) + t2;
    Append(ListBytesWith(h, d.locals, LocalBytes), ListBytesWith(h, d.upvalueNames, StringBytes), rest);
    Append(ListBytesWith(h, d.sourceLines, SourceLineBytes),
           ListBytesWith(h, d.locals, LocalBytes) + ListBytesWith(h, d.upvalueNames, StringBytes), rest);
    SourceLinesRoundTrip(h, d.sourceLines, t1);
    LocalsRoundTrip(h, d.locals, t2);
    NamesRoundTrip(h, d.upvalueNames, rest);
  }

  lemma SourceLinesRoundTrip(h: Header, ls: seq<(uint32, uint32)>, rest: Bytes)
    requires FitsInt(h, |ls|) && forall i :: 0 <= i < |ls| ==> FitsInt(h, ls[i].0) && ls[i].1 == 0
    ensures CountedListWith(SourceLine, h, ListBytesWith(h, ls, SourceLineBytes) + rest) == Ok(ls, rest)
  {
    forall i, t | 0 <= i < |ls|
      ensures SourceLine(h, SourceLineBytes(h, ls[i]) + t) == Ok(ls[i], t)
    {
      SourceLineRoundTrip(h, ls[i], t);
    }
    CountedListWithRoundTrip(h, SourceLine, SourceLineBytes, ls, rest);
  }

  lemma LocalsRoundTrip(h: Header, ls: seq<Local>, rest: Bytes)
    requires FitsInt(h, |ls|) && forall i :: 0 <= i < |ls| ==> LocalFits(h, ls[i])
    ensures CountedListWith(LuaLocal, h, ListBytesWith(h, ls, LocalBytes) + rest) == Ok(ls, rest)
  {
    forall i, t | 0 <= i < |ls|
      ensures LuaLocal(h, LocalBytes(h, ls[i]) + t) == Ok(ls[i], t)
    {
      LocalRoundTrip(h, ls[i], t);
    }
    CountedListWithRoundTrip(h, LuaLocal, LocalBytes, ls, rest);
  }

  lemma NamesRoundTrip(h: Header, ns: seq<Bytes>, rest: Bytes)
    requires FitsInt(h, |ns|) && forall i :: 0 <= i < |ns| ==> StringFits(h, ns[i])
    ensures CountedListWith(LuaString, h, ListBytesWith(h, ns, StringBytes) + rest) == Ok(ns, rest)
  {
    forall i, t | 0 <= i < |ns|
      ensures LuaString(h, StringBytes(h, ns[i]) + t) == Ok(ns[i], t)
    {
      StringRoundTrip(h, ns[i], t);
    }
    CountedListWithRoundTrip(h, LuaString, StringBytes, ns, rest);
  }

  function ChunkDebug(c: Chunk): Debug
  {
    Debug(c.sourceLines, c.locals, c.upvalueNames)
  }

  /**
   * The fields of one prototype a writer can emit under `h`: word-sized
   * instructions, every number within the header's widths, and none of the
   * fields this format does not carry.
   */
  predicate PartsFit(h: Header, c: Chunk) {
    && h.instructionSize == 4
    && StringFits(h, c.name) && FitsInt(h, c.lineDefined) && FitsInt(h, c.lastLineDefined)
    && c.flags == 0 && c.numConstants == [] && c.upvalueInfos == []
    && FitsInt(h, |c.instructions|) && ConstantsFit(h, c.constants) && FitsInt(h, |c.prototypes|)
    && DebugFits(h, ChunkDebug(c))
  }

  /** The prototypes a writer can emit: `PartsFit` for the prototype and, recursively, its nested ones. */
  predicate ChunkFits(h: Header, c: Chunk)
    decreases c
  {
    PartsFit(h, c) && forall i :: 0 <= i < |c.prototypes| ==> ChunkFits(h, c.prototypes[i])
  }

  function HeadOf(c: Chunk): ChunkHead
  {
    ChunkHead(c.name, c.lineDefined, c.lastLineDefined, c.numUpvalues, c.numParams, VarargByte(c.isVararg), c.maxStack)
  }

  function HeadBytes(h: Header, c: Chunk): Bytes
  {
    StringBytes(h, c.name) + (IntBytes(h, c.lineDefined) + (IntBytes(h, c.lastLineDefined)
    + [c.numUpvalues, c.numParams, VarargByte(c.isVararg), c.maxStack]))
  }

  /** A prototype: its head, instructions and constants, its nested prototypes, then its debug information. */
  function ChunkBytes(h: Header, c: Chunk): Bytes
    decreases c, 0
  {
    HeadBytes(h, c) +
    (ListBytesWith(h, c.instructions, InstructionBytes) +
    (ListBytesWith(h, c.constants, EmitConstant) +
    (IntBytes(h, |c.prototypes|) +
    (ProtoListBytes(h, c.prototypes) +
     DebugBytes(h, ChunkDebug(c))))))
  }

  function ProtoListBytes(h: Header, cs: seq<Chunk>): Bytes
    decreases cs, 1
  {
    if cs == [] then [] else ChunkBytes(h, cs[0]) + ProtoListBytes(h, cs[1..])
  }

  lemma HeadRoundTrip(h: Header, c: Chunk, rest: Bytes)
    requires StringFits(h, c.name) && FitsInt(h, c.lineDefined) && FitsInt(h, c.lastLineDefined)
    ensures ReadChunkHead(h, HeadBytes(h, c) + rest) == Ok(HeadOf(c), rest)
  {
    var fixed := [c.numUpvalues, c.numParams, VarargByte(c.isVararg), c.maxStack];
    var bytes := fixed + rest;
    var t2 := IntBytes(h, c.lastLineDefined) + bytes;
    var t1 := IntBytes(h, c.lineDefined) + t2;
    Append(IntBytes(h, c.lastLineDefined), fixed, rest);
    Append(IntBytes(h, c.lineDefined), IntBytes(h, c.lastLineDefined) + fixed, rest);
    Append(StringBytes(h, c.name), IntBytes(h, c.lineDefined) + (IntBytes(h, c.lastLineDefined) + fixed), rest);
    StringRoundTrip(h, c.name, t1);
    IntRoundTrip(h, c.lineDefined, t2);
    IntRoundTrip(h, c.lastLineDefined, bytes);
    assert bytes[1..][1..][1..][1..] == rest;
  }

  /** `lua_chunk` reads back every prototype a writer can emit, nested prototypes included. */
  lemma {:induction false} ChunkRoundTrip(h: Header, c: Chunk, rest: Bytes)
    requires ChunkFits(h, c)
    ensures DecodeChunk(h, ChunkBytes(h, c) + rest) == Ok(c, rest)
    decreases c, 0
  {
    ProtoListRoundTrip(h, c.prototypes, DebugBytes(h, ChunkDebug(c)) + rest);
    ChunkOfParts(h, c, rest);
  }

  /** A prototype whose nested prototypes read back reads back whole. */
  lemma ChunkOfParts(h: Header, c: Chunk, rest: Bytes)
    requires PartsFit(h, c)
    requires ProtoList(h, |c.prototypes|, ProtoListBytes(h, c.prototypes) + (DebugBytes(h, ChunkDebug(c)) + rest))
             == Ok(c.prototypes, DebugBytes(h, ChunkDebug(c)) + rest)
    ensures DecodeChunk(h, ChunkBytes(h, c) + rest) == Ok(c, rest)
  {
    var t5 := DebugBytes(h, ChunkDebug(c)) + rest;
    var t4 := ProtoListBytes(h, c.prototypes) + t5;
    var t3 := IntBytes(h, |c.prototypes|) + t4;
    var t2 := ListBytesWith(h, c.constants, EmitConstant) + t3;
    var t1 := ListBytesWith(h, c.instructions, InstructionBytes) + t2;
    ChunkBytesSplit(h, c, rest);
    PartsRoundTrip(h, c, t4, rest);
    DecodeChunkSteps(h, HeadBytes(h, c) + t1, t1, t2, t3, t4, t5, rest,
      HeadOf(c), c.instructions, c.constants, c.prototypes, ChunkDebug(c));
  }

  /**
   * Every part of a prototype but its nested prototypes reads back, and the
   * flags and vararg information are the ones `lua_chunk` rebuilds.
   */
  lemma PartsRoundTrip(h: Header, c: Chunk, t4: Bytes, rest: Bytes)
    requires PartsFit(h, c)
    ensures var t3 := IntBytes(h, |c.prototypes|) + t4;
            var t2 := ListBytesWith(h, c.constants, EmitConstant) + t3;
            var t1 := ListBytesWith(h, c.instructions, InstructionBytes) + t2;
            && ReadChunkHead(h, HeadBytes(h, c) + t1) == Ok(HeadOf(c), t1)
            && CountedListWith(Instruction, h, t1) == Ok(c.instructions, t2)
            && CountedListWith(LoadConstant, h, t2) == Ok(c.constants, t3)
            && LuaInt(h, t3) == Ok(|c.prototypes|, t4)
            && DebugInfo(h, DebugBytes(h, ChunkDebug(c)) + rest) == Ok(ChunkDebug(c), rest)
            && c == Chunk(c.name, c.lineDefined, c.lastLineDefined, c.numUpvalues, c.numParams,
                          c.maxStack, 0, VarargInfo(VarargByte(c.isVararg)), c.instructions, c.constants, [],
                          c.prototypes, c.sourceLines, c.locals, [], c.upvalueNames)
  {
    var t3 := IntBytes(h, |c.prototypes|) + t4;
    var t2 := ListBytesWith(h, c.constants, EmitConstant) + t3;
    var t1 := ListBytesWith(h, c.instructions, InstructionBytes) + t2;
    HeadRoundTrip(h, c, t1);
    InstructionsRoundTrip(h, c.instructions, t2);
    ConstantsRoundTrip(h, c.constants, t3);
    IntRoundTrip(h, |c.prototypes|, t4);
    DebugRoundTrip(h, ChunkDebug(c), rest);
    VarargRoundTrip(c.isVararg, 0);
  }

  /** The encoding of a prototype, as the sequence of parts `lua_chunk` reads one after another. */
  lemma ChunkBytesSplit(h: Header, c: Chunk, rest: Bytes)
    ensures ChunkBytes(h, c) + rest ==
      HeadBytes(h, c) + (ListBytesWith(h, c.instructions, InstructionBytes) +
      (ListBytesWith(h, c.constants, EmitConstant) + (IntBytes(h, |c.prototypes|) +
      (ProtoListBytes(h, c.prototypes) + (DebugBytes(h, ChunkDebug(c)) + rest)))))
  {
    AppendSix(HeadBytes(h, c), ListBytesWith(h, c.instructions, InstructionBytes),
      ListBytesWith(h, c.constants, EmitConstant), IntBytes(h, |c.prototypes|),
      ProtoListBytes(h, c.prototypes), DebugBytes(h, ChunkDebug(c)), rest);
  }

  /** `lua_chunk` on an input whose parts each read successfully in turn. */
  lemma DecodeChunkSteps(h: Header, s: Bytes, s1: Bytes, s2: Bytes, s3: Bytes, s4: Bytes, s5: Bytes,
                         s6: Bytes, head: ChunkHead, instructions: seq<uint32>, constants: seq<Constant>,
                         prototypes: seq<Chunk>, debug: Debug)
    requires ReadChunkHead(h, s) == Ok(head, s1)
    requires CountedListWith(Instruction, h, s1) == Ok(instructions, s2)
    requires CountedListWith(LoadConstant, h, s2) == Ok(constants, s3)
    requires LuaInt(h, s3) == Ok(|prototypes|, s4)
    requires ProtoList(h, |prototypes|, s4) == Ok(prototypes, s5)
    requires DebugInfo(h, s5) == Ok(debug, s6)
    ensures DecodeChunk(h, s) ==
      Ok(Chunk(head.name, head.lineDefined, head.lastLineDefined, head.numUpvalues, head.numParams,
               head.maxStack, 0, VarargInfo(head.isVararg), instructions, constants, [], prototypes,
               debug.sourceLines, debug.locals, [], debug.upvalueNames), s6)
  {
  }

  /** `count` of prototypes: the first prototype, then the others. */
  lemma ProtoListSteps(h: Header, cs: seq<Chunk>, s: Bytes, s1: Bytes, s2: Bytes)
    requires cs != []
    requires DecodeChunk(h, s) == Ok(cs[0], s1)
    requires ProtoList(h, |cs| - 1, s1) == Ok(cs[1..], s2)
    ensures ProtoList(h, |cs|, s) == Ok(cs, s2)
  {
    ConsSplit(cs);
  }

  lemma {:induction false} ProtoListRoundTrip(h: Header, cs: seq<Chunk>, rest: Bytes)
    requires forall i :: 0 <= i < |cs| ==> ChunkFits(h, cs[i])
    ensures ProtoList(h, |cs|, ProtoListBytes(h, cs) + rest) == Ok(cs, rest)
    decreases cs, 1
  {
    if cs != [] {
      var tail := ProtoListBytes(h, cs[1..]) + rest;
      Append(ChunkBytes(h, cs[0]), ProtoListBytes(h, cs[1..]), rest);
      ChunkRoundTrip(h, cs[0], tail);
      TailFits(h, cs);
      ProtoListRoundTrip(h, cs[1..], rest);
      ProtoListSteps(h, cs, ChunkBytes(h, cs[0]) + tail, tail, rest);
    } else {
      assert ProtoList(h, 0, ProtoListBytes(h, cs) + rest) == Ok([], rest);
    }
  }

  lemma TailFits(h: Header, cs: seq<Chunk>)
    requires cs != [] && forall i :: 0 <= i < |cs| ==> ChunkFits(h, cs[i])
    ensures forall i :: 0 <= i < |cs[1..]| ==> ChunkFits(h, cs[1..][i])
  {
    assert forall i :: 0 <= i < |cs[1..]| ==> cs[1..][i] == cs[i + 1];
  }
}

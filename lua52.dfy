/**
 * The Lua 5.2 prototype decoder (src/lua52.rs). Strings, locals, source
 * lines, instructions and constants are read as in Lua 5.1; a prototype
 * starts with its lines and three bytes, and its upvalue descriptions and
 * its name follow the nested prototypes.
 */
module Lua52 {
  import opened LuaTypes
  import opened Primitives
  import Lua51

  // ----- load_upvalue (src/lua52.rs:8-14) -----

  /** `load_upvalue`: the on-stack flag and the index, one byte each; the kind is zero. */
  function LoadUpvalue(s: Bytes): (r: Result<UpVal>)
    ensures r.Ok? <==> |s| >= 2
    ensures r.Ok? ==> r.rest == s[2..] && r.value == UpVal(s[0] != 0, s[1], 0)
    ensures r.Err? ==> r.failure == Reject
  {
    var (onStack, s1) :- ReadU8(s);
    var (id, s2) :- ReadU8(s1);
    Ok(UpVal(onStack != 0, id, 0), s2)
  }

  function UpvalueBytes(u: UpVal): Bytes
  {
    [if u.onStack then 1 else 0, u.id]
  }

  /** An upvalue of kind zero reads back; this format stores no kind. */
  lemma UpvalueRoundTrip(u: UpVal, rest: Bytes)
    requires u.kind == 0
    ensures LoadUpvalue(UpvalueBytes(u) + rest) == Ok(u, rest)
  {
    assert (UpvalueBytes(u) + rest)[2..] == rest;
  }

  lemma UpvaluesRoundTrip(h: Header, us: seq<UpVal>, rest: Bytes)
    requires FitsInt(h, |us|) && forall i :: 0 <= i < |us| ==> us[i].kind == 0
    ensures CountedList(h, LoadUpvalue, ListBytes(h, us, UpvalueBytes) + rest) == Ok(us, rest)
  {
    forall i, t | 0 <= i < |us|
      ensures LoadUpvalue(UpvalueBytes(us[i]) + t) == Ok(us[i], t)
    {
      UpvalueRoundTrip(us[i], t);
    }
    CountedListRoundTrip(h, LoadUpvalue, UpvalueBytes, us, rest);
  }

  // ----- one prototype (src/lua52.rs:16-109) -----

  /** The fixed head of a prototype. */
  datatype ChunkHead = ChunkHead(
    lineDefined: uint64, lastLineDefined: uint64, numParams: uint8, isVararg: uint8, maxStack: uint8)

  function ReadChunkHead(h: Header, s: Bytes): (r: Result<ChunkHead>)
    ensures Shorter(r, s)
  {
    var (lineDefined, s1) :- LuaInt(h, s);
    var (lastLineDefined, s2) :- LuaInt(h, s1);
    var (numParams, s3) :- ReadU8(s2);
    var (isVararg, s4) :- ReadU8(s3);
    var (maxStack, s5) :- ReadU8(s4);
    Ok(ChunkHead(lineDefined, lastLineDefined, numParams, isVararg, maxStack), s5)
  }

  /** What follows the nested prototypes: the upvalues, the name and the debug information. */
  datatype Tail = Tail(upvalues: seq<UpVal>, name: Bytes, debug: Lua51.Debug)

  function ReadTail(h: Header, s: Bytes): (r: Result<Tail>)
    ensures Shorter(r, s)
  {
    var (upvalues, s1) :- CountedList(h, LoadUpvalue, s);
    var (name, s2) :- Lua51.LuaString(h, s1);
    var (debug, s3) :- Lua51.DebugInfo(h, s2);
    Ok(Tail(upvalues, name, debug), s3)
  }

  /**
   * `lua_chunk`: the head, then the instructions, constants, nested
   * prototypes, upvalues, name, source lines, locals and upvalue names. The
   * upvalue count is the length of the upvalue list truncated to a byte.
   */
  function DecodeChunk(h: Header, s: Bytes): (r: Result<Chunk>)
    ensures Shorter(r, s)
    ensures r.Ok? ==> r.value.numUpvalues == |r.value.upvalueInfos| % 256
    ensures r.Ok? ==> r.value.flags == 0 && r.value.numConstants == []
    decreases |s|, 0, 0
  {
    var (head, s1) :- ReadChunkHead(h, s);
    var (instructions, s2) :- CountedListWith(Lua51.Instruction, h, s1);
    var (constants, s3) :- CountedListWith(Lua51.LoadConstant, h, s2);
    var (prototypes, s4) :- Prototypes(h, s3);
    var (tail, s5) :- ReadTail(h, s4);
    Ok(Chunk(tail.name, head.lineDefined, head.lastLineDefined, |tail.upvalues| % 256, head.numParams,
             head.maxStack, 0, VarargInfo(head.isVararg), instructions, constants, [], prototypes,
             tail.debug.sourceLines, tail.debug.locals, tail.upvalues, tail.debug.upvalueNames), s5)
  }

  /** The nested prototypes: a count, then that many prototypes. */
  function Prototypes(h: Header, s: Bytes): (r: Result<seq<Chunk>>)
    ensures Shorter(r, s)
    decreases |s|, 2, 0
  {
    var (n, s1) :- LuaInt(h, s);
    ProtoList(h, n, s1)
  }

  function ProtoList(h: Header, n: nat, s: Bytes): (r: Result<seq<Chunk>>)
    ensures NoLonger(r, s)
    ensures r.Ok? ==> |r.value| == n
    decreases |s|, 1, n
  {
    if n == 0 then Ok([], s)
    else
      var (c, s1) :- DecodeChunk(h, s);
      var (cs, s2) :- ProtoList(h, n - 1, s1);
      Ok([c] + cs, s2)
  }

  // ----- the writer the prototype decoder inverts -----

  predicate TailFits(h: Header, t: Tail) {
    && FitsInt(h, |t.upvalues|) && (forall i :: 0 <= i < |t.upvalues| ==> t.upvalues[i].kind == 0)
    && Lua51.StringFits(h, t.name) && Lua51.DebugFits(h, t.debug)
  }

  function TailBytes(h: Header, t: Tail): Bytes
  {
    ListBytes(h, t.upvalues, UpvalueBytes) + (Lua51.StringBytes(h, t.name) + Lua51.DebugBytes(h, t.debug))
  }

  lemma TailRoundTrip(h: Header, t: Tail, rest: Bytes)
    requires TailFits(h, t)
    ensures ReadTail(h, TailBytes(h, t) + rest) == Ok(t, rest)
  {
    var b0 := ListBytes(h, t.upvalues, UpvalueBytes);
    var b1 := Lua51.StringBytes(h, t.name);
    var b2 := Lua51.DebugBytes(h, t.debug);
    Append(b1, b2, rest);
    Append(b0, b1 + b2, rest);
    UpvaluesRoundTrip(h, t.upvalues, b1 + (b2 + rest));
    Lua51.StringRoundTrip(h, t.name, b2 + rest);
    Lua51.DebugRoundTrip(h, t.debug, rest);
  }

  function ChunkTail(c: Chunk): Tail
  {
    Tail(c.upvalueInfos, c.name, Lua51.ChunkDebug(c))
  }

  /** The fields of one prototype a writer can emit under `h`. */
  predicate PartsFit(h: Header, c: Chunk) {
    && h.instructionSize == 4
    && FitsInt(h, c.lineDefined) && FitsInt(h, c.lastLineDefined)
    && c.numUpvalues == |c.upvalueInfos| % 256 && c.flags == 0 && c.numConstants == []
    && FitsInt(h, |c.instructions|) && Lua51.ConstantsFit(h, c.constants) && FitsInt(h, |c.prototypes|)
    && TailFits(h, ChunkTail(c))
  }

  /** The prototypes a writer can emit: `PartsFit` for the prototype and, recursively, its nested ones. */
  predicate ChunkFits(h: Header, c: Chunk)
    decreases c
  {
    PartsFit(h, c) && forall i :: 0 <= i < |c.prototypes| ==> ChunkFits(h, c.prototypes[i])
  }

  function HeadOf(c: Chunk): ChunkHead
  {
    ChunkHead(c.lineDefined, c.lastLineDefined, c.numParams, VarargByte(c.isVararg), c.maxStack)
  }

  function HeadBytes(h: Header, c: Chunk): Bytes
  {
    IntBytes(h, c.lineDefined) + (IntBytes(h, c.lastLineDefined) + [c.numParams, VarargByte(c.isVararg), c.maxStack])
  }

  function ChunkBytes(h: Header, c: Chunk): Bytes
    decreases c, 0
  {
    HeadBytes(h, c) +
    (ListBytesWith(h, c.instructions, Lua51.InstructionBytes) +
    (ListBytesWith(h, c.constants, Lua51.EmitConstant) +
    (IntBytes(h, |c.prototypes|) +
    (ProtoListBytes(h, c.prototypes) +
     TailBytes(h, ChunkTail(c))))))
  }

  function ProtoListBytes(h: Header, cs: seq<Chunk>): Bytes
    decreases cs, 1
  {
    if cs == [] then [] else ChunkBytes(h, cs[0]) + ProtoListBytes(h, cs[1..])
  }

  lemma HeadRoundTrip(h: Header, c: Chunk, rest: Bytes)
    requires FitsInt(h, c.lineDefined) && FitsInt(h, c.lastLineDefined)
    ensures ReadChunkHead(h, HeadBytes(h, c) + rest) == Ok(HeadOf(c), rest)
  {
    var fixed := [c.numParams, VarargByte(c.isVararg), c.maxStack];
    var bytes := fixed + rest;
    Append(IntBytes(h, c.lastLineDefined), fixed, rest);
    Append(IntBytes(h, c.lineDefined), IntBytes(h, c.lastLineDefined) + fixed, rest);
    IntRoundTrip(h, c.lineDefined, IntBytes(h, c.lastLineDefined) + bytes);
    IntRoundTrip(h, c.lastLineDefined, bytes);
    assert bytes[1..][1..][1..] == rest;
  }

  /** `lua_chunk` reads back every prototype a writer can emit, nested prototypes included. */
  lemma {:induction false} ChunkRoundTrip(h: Header, c: Chunk, rest: Bytes)
    requires ChunkFits(h, c)
    ensures DecodeChunk(h, ChunkBytes(h, c) + rest) == Ok(c, rest)
    decreases c, 0
  {
    ProtoListRoundTrip(h, c.prototypes, TailBytes(h, ChunkTail(c)) + rest);
    ChunkOfParts(h, c, rest);
  }

  /** A prototype whose nested prototypes read back reads back whole. */
  lemma ChunkOfParts(h: Header, c: Chunk, rest: Bytes)
    requires PartsFit(h, c)
    requires ProtoList(h, |c.prototypes|, ProtoListBytes(h, c.prototypes) + (TailBytes(h, ChunkTail(c)) + rest))
             == Ok(c.prototypes, TailBytes(h, ChunkTail(c)) + rest)
    ensures DecodeChunk(h, ChunkBytes(h, c) + rest) == Ok(c, rest)
  {
    var t5 := TailBytes(h, ChunkTail(c)) + rest;
    var t4 := ProtoListBytes(h, c.prototypes) + t5;
    var t3 := IntBytes(h, |c.prototypes|) + t4;
    var t2 := ListBytesWith(h, c.constants, Lua51.EmitConstant) + t3;
    var t1 := ListBytesWith(h, c.instructions, Lua51.InstructionBytes) + t2;
    ChunkBytesSplit(h, c, rest);
    PartsRoundTrip(h, c, t4, rest);
    DecodeChunkSteps(h, HeadBytes(h, c) + t1, t1, t2, t3, t4, t5, rest,
      HeadOf(c), c.instructions, c.constants, c.prototypes, ChunkTail(c));
  }

  /**
   * Every part of a prototype but its nested prototypes reads back, and the
   * upvalue count, flags and vararg information are the ones `lua_chunk`
   * rebuilds.
   */
  lemma PartsRoundTrip(h: Header, c: Chunk, t4: Bytes, rest: Bytes)
    requires PartsFit(h, c)
    ensures var t3 := IntBytes(h, |c.prototypes|) + t4;
            var t2 := ListBytesWith(h, c.constants, Lua51.EmitConstant) + t3;
            var t1 := ListBytesWith(h, c.instructions, Lua51.InstructionBytes) + t2;
            && ReadChunkHead(h, HeadBytes(h, c) + t1) == Ok(HeadOf(c), t1)
            && CountedListWith(Lua51.Instruction, h, t1) == Ok(c.instructions, t2)
            && CountedListWith(Lua51.LoadConstant, h, t2) == Ok(c.constants, t3)
            && LuaInt(h, t3) == Ok(|c.prototypes|, t4)
            && ReadTail(h, TailBytes(h, ChunkTail(c)) + rest) == Ok(ChunkTail(c), rest)
            && c == Chunk(c.name, c.lineDefined, c.lastLineDefined, |c.upvalueInfos| % 256, c.numParams,
                          c.maxStack, 0, VarargInfo(VarargByte(c.isVararg)), c.instructions, c.constants, [],
                          c.prototypes, c.sourceLines, c.locals, c.upvalueInfos, c.upvalueNames)
  {
    var t3 := IntBytes(h, |c.prototypes|) + t4;
    var t2 := ListBytesWith(h, c.constants, Lua51.EmitConstant) + t3;
    var t1 := ListBytesWith(h, c.instructions, Lua51.InstructionBytes) + t2;
    HeadRoundTrip(h, c, t1);
    Lua51.InstructionsRoundTrip(h, c.instructions, t2);
    Lua51.ConstantsRoundTrip(h, c.constants, t3);
    IntRoundTrip(h, |c.prototypes|, t4);
    TailRoundTrip(h, ChunkTail(c), rest);
    VarargRoundTrip(c.isVararg, 0);
  }

  /** The encoding of a prototype, as the sequence of parts `lua_chunk` reads one after another. */
  lemma ChunkBytesSplit(h: Header, c: Chunk, rest: Bytes)
    ensures ChunkBytes(h, c) + rest ==
      HeadBytes(h, c) + (ListBytesWith(h, c.instructions, Lua51.InstructionBytes) +
      (ListBytesWith(h, c.constants, Lua51.EmitConstant) + (IntBytes(h, |c.prototypes|) +
      (ProtoListBytes(h, c.prototypes) + (TailBytes(h, ChunkTail(c)) + rest)))))
  {
    AppendSix(HeadBytes(h, c), ListBytesWith(h, c.instructions, Lua51.InstructionBytes),
      ListBytesWith(h, c.constants, Lua51.EmitConstant), IntBytes(h, |c.prototypes|),
      ProtoListBytes(h, c.prototypes), TailBytes(h, ChunkTail(c)), rest);
  }

  /** `lua_chunk` on an input whose parts each read successfully in turn. */
  lemma DecodeChunkSteps(h: Header, s: Bytes, s1: Bytes, s2: Bytes, s3: Bytes, s4: Bytes, s5: Bytes,
                         s6: Bytes, head: ChunkHead, instructions: seq<uint32>, constants: seq<Constant>,
                         prototypes: seq<Chunk>, tail: Tail)
    requires ReadChunkHead(h, s) == Ok(head, s1)
    requires CountedListWith(Lua51.Instruction, h, s1) == Ok(instructions, s2)
    requires CountedListWith(Lua51.LoadConstant, h, s2) == Ok(constants, s3)
    requires LuaInt(h, s3) == Ok(|prototypes|, s4)
    requires ProtoList(h, |prototypes|, s4) == Ok(prototypes, s5)
    requires ReadTail(h, s5) == Ok(tail, s6)
    ensures DecodeChunk(h, s) ==
      Ok(Chunk(tail.name, head.lineDefined, head.lastLineDefined, |tail.upvalues| % 256, head.numParams,
               head.maxStack, 0, VarargInfo(head.isVararg), instructions, constants, [], prototypes,
               tail.debug.sourceLines, tail.debug.locals, tail.upvalues, tail.debug.upvalueNames), s6)
  {
  }

  /** `count` of prototypes: the first prototype, then the others. */
  lemma ProtoListSteps(h: Header, cs: seq<Chunk>, s: Bytes, s1: Bytes, s2: Bytes)
    requires cs != []
    requires DecodeChunk(h, s) == Ok(cs[0], s1)
    requires ProtoList(h, |cs| - 1, s1) == Ok(cs[1..], s2)
    ensures ProtoList(h, |cs|, s) == Ok(cs, s2)
  {
    ConsSplit(cs);
  }

  lemma {:induction false} ProtoListRoundTrip(h: Header, cs: seq<Chunk>, rest: Bytes)
    requires forall i :: 0 <= i < |cs| ==> ChunkFits(h, cs[i])
    ensures ProtoList(h, |cs|, ProtoListBytes(h, cs) + rest) == Ok(cs, rest)
    decreases cs, 1
  {
    if cs != [] {
      var tail := ProtoListBytes(h, cs[1..]) + rest;
      Append(ChunkBytes(h, cs[0]), ProtoListBytes(h, cs[1..]), rest);
      RestFit(h, cs);
      ChunkRoundTrip(h, cs[0], tail);
      ProtoListRoundTrip(h, cs[1..], rest);
      ProtoListSteps(h, cs, ChunkBytes(h, cs[0]) + tail, tail, rest);
    } else {
      assert ProtoList(h, 0, ProtoListBytes(h, cs) + rest) == Ok([], rest);
    }
  }

  lemma RestFit(h: Header, cs: seq<Chunk>)
    requires cs != [] && forall i :: 0 <= i < |cs| ==> ChunkFits(h, cs[i])
    ensures ChunkFits(h, cs[0])
    ensures forall i :: 0 <= i < |cs[1..]| ==> ChunkFits(h, cs[1..][i])
  {
    assert forall i :: 0 <= i < |cs[1..]| ==> cs[1..][i] == cs[i + 1];
  }
}

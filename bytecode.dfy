/**
 * `lua_bytecode` and `parse` (src/lib.rs:446-467): a header of either the
 * reference Lua or LuaJIT, then the main prototype in the dialect the
 * header's version byte selects.
 */
module Decoder {
  import opened LuaTypes
  import opened Primitives
  import LuaHeaders
  import LuaJit
  import Lua51
  import Lua52
  import Lua53
  import Lua54

  /** The versions `lua_bytecode` decodes a main prototype for. */
  predicate Supported(version: uint8) {
    version == LUA51 || version == LUA52 || version == LUA53 || version == LUA54 ||
    version == LUAJ1 || version == LUAJ2
  }

  /** `alt((lua_header, lj_header))`. */
  function AnyHeader(s: Bytes, hostBig: bool): (r: Result<Header>)
    ensures r.Err? ==> r.failure == Reject
  {
    Alt(LuaHeaders.LuaHeader(s, hostBig), LuaJit.LjHeader(s))
  }

  /**
   * The main prototype, read by the decoder of the header's dialect; any
   * other version fails. The version tests are disjoint, so testing for
   * LuaJIT first does not change the match.
   */
  function MainChunk(h: Header, s: Bytes): Result<Chunk>
  {
    var v := h.luaVersion;
    if v == LUAJ1 || v == LUAJ2 then LuaJit.LjChunkSpec(h, s)
    else ReferenceChunk(h, s)
  }

  /** The arms of the dispatch for the reference Lua dialects. */
  function ReferenceChunk(h: Header, s: Bytes): Result<Chunk>
  {
    var v := h.luaVersion;
    if v == LUA51 then Lua51.DecodeChunk(h, s)
    else if v == LUA52 then Lua52.DecodeChunk(h, s)
    else if v == LUA53 then Lua53.DecodeChunk(h, s)
    else if v == LUA54 then Lua54.DecodeChunk(h, s)
    else Err(Reject)
  }

  /** `lua_bytecode`: the header, then the main prototype; the input after it is returned. */
  function LuaBytecode(s: Bytes, hostBig: bool): (r: Result<Bytecode>)
    ensures r.Ok? ==>
      AnyHeader(s, hostBig).Ok? && r.value.header == AnyHeader(s, hostBig).value &&
      MainChunk(r.value.header, AnyHeader(s, hostBig).rest) == Ok(r.value.mainChunk, r.rest)
  {
    var (h, s1) :- AnyHeader(s, hostBig);
    var (c, s2) :- MainChunk(h, s1);
    Ok(Bytecode(h, c), s2)
  }

  /** What `parse` returns: the bytecode, an error report, or a panic of the decoder. */
  datatype Parsed = Parsed(bytecode: Bytecode) | Failed | Panicked

  /** `parse`: `lua_bytecode` with the remaining input dropped and the error rendered. */
  function Parse(s: Bytes, hostBig: bool): (r: Parsed)
    ensures r.Parsed? <==> LuaBytecode(s, hostBig).Ok?
    ensures r.Parsed? ==> r.bytecode == LuaBytecode(s, hostBig).value && Supported(r.bytecode.header.luaVersion)
    ensures r.Panicked? <==> LuaBytecode(s, hostBig) == Err(Panic)
  {
    var b := LuaBytecode(s, hostBig);
    if b.Ok? then
      HeaderSupported(s, hostBig);
      Parsed(b.value)
    else if b.failure == Panic then Panicked
    else Failed
  }

  /**
   * The two signatures exclude each other: an input is a reference Lua
   * file, a LuaJIT file or neither, and `alt` picks the header that matches.
   */
  lemma HeaderBySignature(s: Bytes, hostBig: bool)
    ensures LuaHeaders.LuaHeader(s, hostBig).Ok? ==> LuaJit.LjHeader(s).Err?
    ensures AnyHeader(s, hostBig) ==
      if LuaHeaders.LuaHeader(s, hostBig).Ok? then LuaHeaders.LuaHeader(s, hostBig) else LuaJit.LjHeader(s)
  {
  }

  /**
   * Every header either reader accepts has a version with a decoder: the
   * `unsupported lua version` arm of the dispatch is never taken.
   */
  lemma HeaderSupported(s: Bytes, hostBig: bool)
    requires AnyHeader(s, hostBig).Ok?
    ensures Supported(AnyHeader(s, hostBig).value.luaVersion)
  {
    HeaderBySignature(s, hostBig);
  }

  /** `lua_bytecode` is its two steps in sequence. */
  lemma BytecodeSteps(s: Bytes, hostBig: bool, s1: Bytes, h: Header, c: Chunk, rest: Bytes)
    requires AnyHeader(s, hostBig) == Ok(h, s1) && MainChunk(h, s1) == Ok(c, rest)
    ensures LuaBytecode(s, hostBig) == Ok(Bytecode(h, c), rest)
  {
  }

  /** The 5.1 arm of the dispatch. */
  lemma MainChunk51(h: Header, s: Bytes)
    requires h.luaVersion == LUA51
    ensures MainChunk(h, s) == Lua51.DecodeChunk(h, s)
  {
  }

  /** The LuaJIT arm of the dispatch. */
  lemma MainChunkJit(h: Header, s: Bytes)
    requires h.luaVersion == LUAJ1 || h.luaVersion == LUAJ2
    ensures MainChunk(h, s) == LuaJit.LjChunkSpec(h, s)
  {
  }

  /** A Lua 5.1 file as a writer lays it out decodes to its header and main prototype. */
  lemma Lua51FileRoundTrip(h: Header, c: Chunk, hostBig: bool, rest: Bytes)
    requires LuaHeaders.IsHeader51(h) && Lua51.ChunkFits(h, c)
    ensures LuaBytecode(LuaHeaders.Header51Bytes(h) + Lua51.ChunkBytes(h, c) + rest, hostBig) == Ok(Bytecode(h, c), rest)
  {
    var s := LuaHeaders.Header51Bytes(h) + Lua51.ChunkBytes(h, c) + rest;
    var body := Lua51.ChunkBytes(h, c) + rest;
    Append(LuaHeaders.Header51Bytes(h), Lua51.ChunkBytes(h, c), rest);
    LuaHeaders.Header51RoundTrip(h, hostBig, body);
    assert AnyHeader(s, hostBig) == Ok(h, body);
    Lua51.ChunkRoundTrip(h, c, rest);
    MainChunk51(h, body);
    BytecodeSteps(s, hostBig, body, h, c, rest);
  }

  /** The main prototype of a LuaJIT file is the root of a well-formed prototype tree. */
  lemma LuaJitMainChunk(s: Bytes, hostBig: bool)
    requires LuaBytecode(s, hostBig).Ok?
    requires LuaBytecode(s, hostBig).value.header.luaVersion in {LUAJ1, LUAJ2}
    ensures LuaJit.LjTree(LuaBytecode(s, hostBig).value.mainChunk)
  {
    var h := AnyHeader(s, hostBig);
    MainChunkJit(h.value, h.rest);
    LuaJit.LjChunkShape(h.value, h.rest);
  }
}

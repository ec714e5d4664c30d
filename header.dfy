/**
 * `lua_header` (src/lib.rs:213-358): the `\x1BLua` signature, then one of
 * four version-specific layouts. Every field after the version byte is a
 * `be_u8`, a `take` of LUAC_DATA, an `le_i64` or an `le_f64`, each of which
 * fails only when the input runs out, so a layout is read here as one `take`
 * of its field bytes from which the header is built.
 */
module LuaHeaders {
  import opened LuaTypes
  import opened Primitives

  /** `\x1BLua`. */
  const LuaSignature: Bytes := [0x1B, 0x4C, 0x75, 0x61]

  /** The whole header length, signature included, for each version byte; 0 when unknown. */
  function HeaderLength(version: uint8): nat
  {
    if version == LUA51 then 12
    else if version == LUA52 then 18
    else if version == LUA53 then 34
    else if version == LUA54 then 32
    else 0
  }

  /** 5.1: format, endianness, int, size_t, instruction and number sizes, integral flag. */
  function Header51(s: Bytes): Result<Header>
  {
    var (_, s1) :- Tag([LUA51], s);
    var (b, s2) :- Take(7, s1);
    Ok(Header(LUA51, b[0], b[1] != 1, b[2], b[3], b[4], b[5], b[6] != 0, false, false), s2)
  }

  /** 5.2: the 5.1 fields followed by the six LUAC_DATA bytes. */
  function Header52(s: Bytes): Result<Header>
  {
    var (_, s1) :- Tag([LUA52], s);
    var (b, s2) :- Take(13, s1);
    Ok(Header(LUA52, b[0], b[1] != 1, b[2], b[3], b[4], b[5], b[6] != 0, false, false), s2)
  }

  /**
   * 5.3: format, LUAC_DATA, int, size_t, instruction, lua_Integer and number
   * sizes, the check integer and number, the upvalue count of the main
   * function. The byte order is the host's, and numbers are never integral.
   */
  function Header53(s: Bytes, hostBig: bool): Result<Header>
  {
    var (_, s1) :- Tag([LUA53], s);
    var (b, s2) :- Take(29, s1);
    Ok(Header(LUA53, b[0], hostBig, b[7], b[8], b[9], b[11], false, false, false), s2)
  }

  /** 5.4: format, LUAC_DATA, instruction, lua_Integer and number sizes, checks, upvalue count. */
  function Header54(s: Bytes, hostBig: bool): Result<Header>
  {
    var (_, s1) :- Tag([LUA54], s);
    var (b, s2) :- Take(27, s1);
    Ok(Header(LUA54, b[0], hostBig, 4, 8, b[7], b[9], false, false, false), s2)
  }

  /**
   * `lua_header`. `hostBig` is `cfg!(target_endian = "big")` of the machine
   * running the decoder, which the 5.3 and 5.4 layouts report as the file's
   * byte order.
   */
  function LuaHeader(s: Bytes, hostBig: bool): (r: Result<Header>)
    ensures r.Ok? <==>
      |s| >= 5 && s[..4] == LuaSignature && HeaderLength(s[4]) > 0 && |s| >= HeaderLength(s[4])
    ensures r.Ok? ==>
      r.rest == s[HeaderLength(s[4])..] && r.value.luaVersion == s[4] &&
      r.value.formatVersion == s[5] && !r.value.stripped && !r.value.hasFfi
    ensures r.Ok? && (s[4] == LUA51 || s[4] == LUA52) ==>
      r.value.bigEndian == (s[6] != 1) && r.value.intSize == s[7] && r.value.sizeTSize == s[8] &&
      r.value.instructionSize == s[9] && r.value.numberSize == s[10] && r.value.numberIntegral == (s[11] != 0)
    ensures r.Ok? && s[4] == LUA53 ==>
      r.value.bigEndian == hostBig && !r.value.numberIntegral && r.value.intSize == s[12] &&
      r.value.sizeTSize == s[13] && r.value.instructionSize == s[14] && r.value.numberSize == s[16]
    ensures r.Ok? && s[4] == LUA54 ==>
      r.value.bigEndian == hostBig && !r.value.numberIntegral && r.value.intSize == 4 &&
      r.value.sizeTSize == 8 && r.value.instructionSize == s[12] && r.value.numberSize == s[14]
    ensures r.Err? ==> r.failure == Reject
  {
    var (_, s1) :- Tag(LuaSignature, s);
    assert s1 == s[4..];
    Alt(Header51(s1), Alt(Header52(s1), Alt(Header53(s1, hostBig), Header54(s1, hostBig))))
  }

  /** The Lua 5.1 headers a writer can describe: `lua_header` always reports them unstripped and without FFI. */
  predicate IsHeader51(h: Header) {
    h.luaVersion == LUA51 && !h.stripped && !h.hasFfi
  }

  /** A Lua 5.1 header as a writer lays it out: the little-endian flag is 1, the integral flag is 1 when set. */
  function Header51Bytes(h: Header): Bytes
  {
    LuaSignature + [LUA51, h.formatVersion, if h.bigEndian then 0 else 1, h.intSize, h.sizeTSize,
                    h.instructionSize, h.numberSize, if h.numberIntegral then 1 else 0]
  }

  /** Writing a Lua 5.1 header and reading it back gives the header, on hosts of either byte order. */
  lemma Header51RoundTrip(h: Header, hostBig: bool, rest: Bytes)
    requires IsHeader51(h)
    ensures LuaHeader(Header51Bytes(h) + rest, hostBig) == Ok(h, rest)
  {
    var s := Header51Bytes(h) + rest;
    assert s[..4] == LuaSignature;
    assert s[12..] == rest;
  }
}

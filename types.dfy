/**
 * The decoded representation of a precompiled Lua chunk (src/lib.rs:40-211):
 * the header descriptor, numbers, constants, locals, upvalues and the
 * recursive prototype tree, together with the parse result shared by every
 * decoder of this model.
 */
module LuaTypes {

  type uint8 = x: int | 0 <= x < 0x100
  type uint16 = x: int | 0 <= x < 0x1_0000
  type uint32 = x: int | 0 <= x < 0x1_0000_0000
  type uint64 = x: int | 0 <= x < 0x1_0000_0000_0000_0000
  type int64 = x: int | -0x8000_0000_0000_0000 <= x < 0x8000_0000_0000_0000

  type Bytes = seq<uint8>

  const TWO_32: int := 0x1_0000_0000
  const TWO_64: int := 0x1_0000_0000_0000_0000

  datatype Option<+T> = None | Some(value: T)

  /**
   * How a decoder gives up. `Reject` is a recoverable parse error: an `alt`
   * moves on to its next alternative. `Panic` stands for a Rust panic
   * (`unreachable!`, an index out of range, an arithmetic overflow caught by
   * the overflow checks of a debug build): it ends the whole decode, and no
   * `alt` can recover from it.
   */
  datatype Failure = Reject | Panic

  /** The outcome of a parser: a value and the input it left, or a failure. */
  datatype Result<+T> = Ok(value: T, rest: Bytes) | Err(failure: Failure) {
    predicate IsFailure() { Err? }
    function PropagateFailure<U>(): Result<U> requires Err? { Err(failure) }
    function Extract(): (T, Bytes) requires Ok? { (value, rest) }
  }

  /** A successful parse never leaves more input than it was given. */
  predicate NoLonger<T>(r: Result<T>, s: Bytes) {
    r.Ok? ==> |r.rest| <= |s|
  }

  /** A successful parse consumed at least one byte. */
  predicate Shorter<T>(r: Result<T>, s: Bytes) {
    r.Ok? ==> |r.rest| < |s|
  }

  /**
   * A floating-point payload, kept as its bit pattern: an IEEE-754 double,
   * or a single that the source widens to a double (the widening itself is
   * not modelled, so the single keeps its own 32-bit pattern).
   */
  datatype FloatBits = F64(bits64: uint64) | F32(bits32: uint32) {
    /** The bit pattern, whichever its width. */
    function Bits(): nat {
      match this
      case F64(b) => b
      case F32(b) => b
    }
  }

  /** `LuaNumber` (src/lib.rs:65-70). */
  datatype Number = Integer(i: int64) | Float(f: FloatBits)

  /** `LuaConstant` and `ConstTable` (src/lib.rs:81-100). */
  datatype Constant =
    | Null
    | Bool(b: bool)
    | Number(n: Number)
    | Str(bytes: Bytes)
    | Proto(index: nat)
    | Table(table: ConstTable)

  datatype ConstTable = ConstTable(arrayPart: seq<Constant>, hashPart: seq<(Constant, Constant)>)

  /** `LuaLocal` (src/lib.rs:132-138); the name is kept as bytes. */
  datatype Local = Local(name: Bytes, startPc: uint64, endPc: uint64, reg: uint8)

  /** `LuaVarArgInfo` (src/lib.rs:140-144). */
  datatype VarArgInfo = VarArgInfo(hasArg: bool, needsArg: bool)

  /** `UpVal` (src/lib.rs:146-151). */
  datatype UpVal = UpVal(onStack: bool, id: uint8, kind: uint8)

  /** `LuaChunk` (src/lib.rs:153-175): one function prototype. */
  datatype Chunk = Chunk(
    name: Bytes,
    lineDefined: uint64,
    lastLineDefined: uint64,
    numUpvalues: uint8,
    numParams: uint8,
    maxStack: uint8,
    flags: uint8,
    isVararg: Option<VarArgInfo>,
    instructions: seq<uint32>,
    constants: seq<Constant>,
    numConstants: seq<Number>,
    prototypes: seq<Chunk>,
    sourceLines: seq<(uint32, uint32)>,
    locals: seq<Local>,
    upvalueInfos: seq<UpVal>,
    upvalueNames: seq<Bytes>)

  /** `LuaChunk::default()`: every field zero or empty. */
  const EmptyChunk: Chunk :=
    Chunk([], 0, 0, 0, 0, 0, 0, None, [], [], [], [], [], [], [], [])

  /** `LuaChunk::is_empty` (src/lib.rs:202-204). */
  predicate IsEmpty(c: Chunk) {
    c.instructions == []
  }

  /** `LuaHeader` (src/lib.rs:40-53). */
  datatype Header = Header(
    luaVersion: uint8,
    formatVersion: uint8,
    bigEndian: bool,
    intSize: uint8,
    sizeTSize: uint8,
    instructionSize: uint8,
    numberSize: uint8,
    numberIntegral: bool,
    stripped: bool,
    hasFfi: bool)

  /** `LuaBytecode` (src/lib.rs:207-211). */
  datatype Bytecode = Bytecode(header: Header, mainChunk: Chunk)

  /** Dialect selectors stored in `Header.luaVersion` (src/lib.rs:480-485). */
  const LUA51: uint8 := 0x51
  const LUA52: uint8 := 0x52
  const LUA53: uint8 := 0x53
  const LUA54: uint8 := 0x54
  const LUAJ1: uint8 := 0x11
  const LUAJ2: uint8 := 0x12

  function Pow2(n: nat): (r: nat)
    ensures r >= 1
  {
    if n == 0 then 1 else 2 * Pow2(n - 1)
  }

  function Pow256(n: nat): (r: nat)
    ensures r >= 1
  {
    if n == 0 then 1 else 256 * Pow256(n - 1)
  }

  /** Two's-complement reading of an unsigned value `v` of `n` bytes. */
  function ToSigned(v: nat, n: nat): int
  {
    if 2 * v >= Pow256(n) then v - Pow256(n) else v
  }
}

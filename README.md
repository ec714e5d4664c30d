# luac-parser-rs, modelled in Dafny

A model of the decoder at the heart of `luac-parser-rs`. The decoder reads
precompiled Lua chunks: Lua 5.1, 5.2, 5.3 and 5.4 `luac` output, LuaJIT
bytecode dumps and Luau bytecode. Each parser is a total function from a byte
sequence to `Ok(value, rest)` or `Err(failure)`. `failure` is one of two kinds:

- `Reject`: a recoverable nom error, which `alt` answers by trying its next
  branch;
- `Panic`: a Rust panic, which `alt` does not catch. Causes are an index out of
  range, `unreachable!`, a failed `assert!`, and arithmetic caught by
  overflow checks.

The model describes a build with overflow checks on, which is the debug and test
profile.

Files and modules:

| file | module | what |
|---|---|---|
| types.dfy | `LuaTypes` | `LuaHeader`, `LuaNumber`, `LuaConstant`, `ConstTable`, `LuaLocal`, `UpVal`, `LuaChunk`, `LuaBytecode`, `Result` |
| primitives.dfy | `Primitives` | `must`, `alt`, `length_count`, `lua_int`, `lua_size_t`, `lua_number`, and the writers they round-trip with |
| leb128.dfy | `Leb128` | standard unsigned LEB128 (the `nom_leb128` readers) and its encoder |
| header.dfy | `LuaHeaders` | `lua_header` for 5.1 to 5.4 |
| bytecode.dfy | `Decoder` | `lua_bytecode` and `parse` |
| lua51.dfy ... lua54.dfy | `Lua51` ... `Lua54` | the per-version `lua_chunk` decoders |
| luajit.dfy | `LuaJit` | `uleb128_33`, `lj_header`, the constant readers, `lj_proto`, `lj_chunk`, `ProtoFlags` |
| luau.dfy | `Luau` | `varint`, `string`, `table`, `constants`, `bytecode` |

The loops of the source are methods proved against a specification function
(`ensures r == Spec(input)`). They are:

- `uleb128_33`, `lj_chunk`;
- the Luau `varint`, `table`, `constants` and `bytecode` loops;
- Lua 5.4 `load_unsigned`.

The combinator code is written as functions. Most readers have a writer, and
a round-trip lemma pairs the two: reading what the writer produced gives back
the value and leaves the rest of the input untouched. The readers without a
writer are each named under "Left out" with what is stated about them
instead. They are the LuaJIT prototype readers and whole dumps, the Luau
prototype and line-info readers and whole files, and the Luau string, table
and import constants.

Several places where the code does not do what its tests or the file format
expect are modelled as written. Each is stated as a lemma about the code, next
to an intended reading with its own round trip:

- `Primitives.LuaNumberSwapsWidths`: the integral widths are swapped;
- `LuaJit.Uleb33Lag`, `LuaJit.LjNumConstantMisreads`: `uleb128_33` ORs in the
  previous byte;
- `LuaJit.TabkShortTagMisread`, `LuaJit.TabkLongStringMisread`,
  `LuaJit.KgcStringRoundTrip`: tags are matched on `ty as u8`, so a string
  whose tag has a low byte below 5 (below 4 for prototype constants) is
  misread; the intended readings `LuaJit.LjTabkIntended` and
  `LuaJit.LjComplexConstantIntended` match on the whole tag and round-trip
  strings of every length;
- `Lua53.ZeroSizeStringPanics`: `le_u8_minus_one` underflows;
- `Lua53.LongStringMisread`: a constant string has no `0xFF` escape;
- `Luau.VarintWraps`: `varint` does not check for overflow.

`Luau.TakeTwice` states one more behaviour of the code without an intended
alternative: a second reference to a moved-out prototype yields an empty
chunk. Neither the tests nor the format say what a second reference should
give.

## Model

| member | source | states |
|---|---|---|
| Primitives.Many | src/luajit.rs:127-131 | `count(p, n)` yields exactly `n` items and never grows the input |
| Primitives.ManyRejects | src/luajit.rs:244-265 | a count of parsers that only reject itself only rejects |
| Primitives.ReadUInt | src/lib.rs:56-62 | succeeds iff `n` bytes remain; the value is those bytes in the header's byte order, below `256^n`, and the rest follows them |
| Primitives.ReadU16 | src/lib.rs:389 | two bytes in the chosen byte order, failing only on short input |
| Primitives.ReadU32 | src/lib.rs:385 | four bytes in the chosen byte order, failing only on short input |
| Primitives.WidthInt | src/lib.rs:376-392 | the `alt` of four `must` branches: succeeds iff the width is 1, 2, 4 or 8 and that many bytes remain; the value is the bytes read in order, below `256^width` |
| Primitives.LuaInt | src/lib.rs:376-394 | `lua_int` consumes exactly `int_size` bytes for widths 1, 2, 4 and 8 and rejects any other width; the value is below `256^int_size` |
| Primitives.LuaSizeT | src/lib.rs:396-414 | `lua_size_t`: the same, for `size_t_size` |
| Primitives.OneByteValue | src/lib.rs:391 | a one-byte integer reads the same in either byte order |
| Primitives.UIntValueBound | src/lib.rs:381-391 | a value read from `n` bytes is below `256^n` |
| Primitives.LeRoundTrip | src/lib.rs:381-391 | the little-endian writer and reader are inverse on values below `256^n` |
| Primitives.BeRoundTrip | src/lib.rs:381-391 | the big-endian writer and reader are inverse on values below `256^n` |
| Primitives.LeBytesOfValue | src/lib.rs:381-391 | the little-endian writer recovers any byte string from its value |
| Primitives.BeBytesOfValue | src/lib.rs:381-391 | the big-endian writer recovers any byte string from its value |
| Primitives.WidthIntRoundTrip | src/lib.rs:376-392 | a value written at a valid width reads back and leaves the rest |
| Primitives.WidthIntInverse | src/lib.rs:376-392 | whatever the reader accepts is exactly the writer's output for the value read, followed by the rest |
| Primitives.IntRoundTrip | src/lib.rs:376-394 | `lua_int` reads back what the `int_size` writer emits |
| Primitives.SizeRoundTrip | src/lib.rs:396-414 | `lua_size_t` reads back what the `size_t_size` writer emits |
| Primitives.ToSignedRange | src/lib.rs:424-427 | a sign-extended value of at most 8 bytes fits in `i64` |
| Primitives.SignedRoundTrip | src/lib.rs:424-427 | sign extension inverts the two's-complement encoding at every width |
| Primitives.ReadF64 | src/lib.rs:436 | an 8-byte float is its bit pattern in the chosen byte order |
| Primitives.LuaNumber | src/lib.rs:416-444 | integral: succeeds iff the size is 1, 2, 4 or 8 and the swapped width (8→1, 4→2, 2→4, 1→8) is available; the value is those bytes sign-extended. Float: succeeds iff the size is 8 or 4 and that many bytes remain; the value is an `F64` or `F32` pattern. Failure is always a reject |
| Primitives.NumberRoundTrip | src/lib.rs:416-444 | `lua_number` reads back every number its width can hold, as the code lays it out |
| Primitives.LuaNumberIntended | src/lib.rs:420-431 | the reading `test_int` expects: an integral number occupies `number_size` bytes |
| Primitives.IntendedNumberRoundTrip | src/lib.rs:420-431 | the intended reading round-trips every integer of the width |
| Primitives.LuaNumberSwapsWidths | tests/lua51.rs:30-44 | with 8-byte integral numbers, the bytes of 1337 decode as 57 and leave 7 bytes unread; the intended reading gives 1337 |
| Primitives.ManyRoundTrip | src/lib.rs:376-394 | a counted sequence of written items reads back in order |
| Primitives.ManyWithRoundTrip | src/lib.rs:376-394 | the same, for item readers that take the header |
| Primitives.CountedList | src/lua51.rs:36 | `length_count(lua_int, p)` always consumes input |
| Primitives.CountedListRoundTrip | src/lua51.rs:36-75 | `length_count(lua_int, p)` reads back a written list whenever `p` reads back each item |
| Primitives.CountedListWithRoundTrip | src/lua51.rs:36-75 | the same, for item readers that take the header |
| Primitives.VarargRoundTrip | src/lua51.rs:84-91 | `is_vararg` depends only on bits 0 to 2 of its byte, and every vararg value has a byte that decodes to it |
| Leb128.LebUnsigned | src/luajit.rs:89 | `nom_leb128` (not shown), as called here and at src/luajit.rs:124: unsigned LEB128 succeeds iff the input holds a terminated group run whose value fits the width; the rest follows the run |
| Leb128.LebU32 | src/luajit.rs:124 | `leb128_u32`: LEB128 values below 2^32 |
| Leb128.LebU64 | src/luajit.rs:89 | `leb128_u64`: LEB128 values below 2^64 |
| Leb128.LebRoundTrip | src/luajit.rs:124 | for the `leb128_u32` and `leb128_u64` calls (also src/luajit.rs:89), decoding what the encoder wrote gives the value back and leaves the rest |
| Leb128.LebU32RoundTrip | src/luajit.rs:124 | the same, for 32-bit values |
| Leb128.LebU64RoundTrip | src/luajit.rs:89 | the same, for 64-bit values |
| Leb128.RedundantZeroGroup | src/luajit.rs:124 | the model of `nom_leb128` accepts a redundant high zero group: `[0x80, 0x00]` and `[0x00]` both read as 0 |
| LuaHeaders.LuaHeader | src/lib.rs:213-358 | accepts iff the input starts with `\x1BLua`, a version from 0x51 to 0x54 and that version's whole header; consumes 12, 18, 34 or 32 bytes. For 5.1 and 5.2 `big_endian` is `byte != 1` and `number_integral` is `byte != 0`. For 5.3 and 5.4 the byte order is the host's and numbers are not integral. 5.4 fixes `int_size = 4` and `size_t_size = 8`. Failure is a reject |
| LuaHeaders.Header51RoundTrip | src/lib.rs:217-248 | a 5.1 header written with the field order of `lua_header` reads back, on either host |
| Decoder.AnyHeader | src/lib.rs:447 | the header `alt` only ever rejects, so `lua_bytecode` tries the LuaJIT header after the Lua one |
| Decoder.LuaBytecode | src/lib.rs:446-458 | a decoded file is the header that `alt` picked, followed by the main prototype that the decoder for `lua_version` read from the bytes after it; trailing input is returned |
| Decoder.Parse | src/lib.rs:460-467 | `parse` succeeds iff `lua_bytecode` succeeds, with the same bytecode and a supported version; it panics iff `lua_bytecode` panics, and otherwise reports an error |
| Decoder.HeaderBySignature | src/lib.rs:447 | the two signatures exclude each other, so `alt` returns whichever header matches |
| Decoder.HeaderSupported | src/lib.rs:449-456 | every accepted header has a version with a decoder, so the `unsupported lua version` arm is never reached |
| Decoder.Lua51FileRoundTrip | src/lib.rs:446-458 | a whole 5.1 file, header then main prototype, decodes to that header and prototype |
| Decoder.LuaJitMainChunk | src/lib.rs:454 | the main prototype of a LuaJIT file is the root of a well-formed prototype tree |
| Lua51.LuaString | src/lua51.rs:3-7 | `lua_string` always consumes input, and only rejects |
| Lua51.TerminatedRoundTrip | src/lua51.rs:3-7 | a `size_t` length `n > 0` and `n` bytes read back as the first `n-1` of them, whatever the dropped last byte |
| Lua51.StringRoundTrip | src/lua51.rs:3-7 | a written string reads back |
| Lua51.StringAbsent | src/lua51.rs:5 | length 0 gives the empty string and consumes only the length |
| Lua51.LuaLocal | src/lua51.rs:9-18 | a local is a string and two `lua_int`s; its register is the default 0 |
| Lua51.LocalRoundTrip | src/lua51.rs:9-18 | a written local reads back |
| Lua51.SourceLine | src/lua51.rs:63-67 | one source-line entry is `(n as u32, 0)` |
| Lua51.SourceLineTruncates | src/lua51.rs:65 | an entry of any `int_size` value `v` reads as `(v mod 2^32, 0)` |
| Lua51.SourceLineRoundTrip | src/lua51.rs:63-67 | a written entry reads back |
| Lua51.Instruction | src/lua51.rs:36-42 | an instruction decodes iff `instruction_size == 4` and four bytes remain; its value is the four bytes in the header's byte order |
| Lua51.InstructionRoundTrip | src/lua51.rs:36-42 | a written instruction reads back |
| Lua51.InstructionsRoundTrip | src/lua51.rs:36-42 | a written instruction list reads back |
| Lua51.LoadConstant | src/lua51.rs:43-56 | a constant decodes only from tags 0, 1, 3 and 4; tag 0 is nil and consumes one byte; tag 1 is `Bool(byte != 0)`; failure is a reject |
| Lua51.ConstantRoundTrip | src/lua51.rs:43-56 | each constant that 5.1 can hold reads back: nil, booleans, numbers of the header's width and strings |
| Lua51.UnknownTagRefused | src/lua51.rs:50-53 | any other tag is refused with a reject |
| Lua51.ConstantsRoundTrip | src/lua51.rs:43-57 | a written constant list reads back |
| Lua51.DebugRoundTrip | src/lua51.rs:63-74 | the source lines, locals and upvalue names read back |
| Lua51.SourceLinesRoundTrip | src/lua51.rs:63-67 | a written source-line list reads back |
| Lua51.LocalsRoundTrip | src/lua51.rs:68-69 | a written local list reads back |
| Lua51.NamesRoundTrip | src/lua51.rs:70-74 | a written upvalue-name list reads back |
| Lua51.DecodeChunk | src/lua51.rs:20-107 | `lua_chunk` always consumes input; `upvalue_infos` and `num_constants` are empty, `flags` 0 |
| Lua51.ProtoList | src/lua51.rs:59-60 | the prototype list holds exactly the count read |
| Lua51.HeadRoundTrip | src/lua51.rs:24-28 | name, line range and the four bytes read back |
| Lua51.ChunkRoundTrip | src/lua51.rs:20-107 | a prototype written in `lua_chunk`'s field order reads back whole, children included; `num_upvalues` comes from its own byte |
| Lua51.ProtoListRoundTrip | src/lua51.rs:58-62 | a written list of sub-prototypes reads back |
| Lua52.LoadUpvalue | src/lua52.rs:8-14 | an upvalue is two bytes: `on_stack = byte != 0`, `id`, and `kind` 0 |
| Lua52.UpvalueRoundTrip | src/lua52.rs:8-14 | a written upvalue reads back |
| Lua52.UpvaluesRoundTrip | src/lua52.rs:53-54 | a written upvalue list reads back |
| Lua52.ReadChunkHead | src/lua52.rs:20-21 | the nameless 5.2 head always consumes input |
| Lua52.ReadTail | src/lua52.rs:53-67 | the tail (upvalues, source name, then the 5.1 debug lists) always consumes input |
| Lua52.TailRoundTrip | src/lua52.rs:53-67 | the written tail reads back |
| Lua52.DecodeChunk | src/lua52.rs:16-109 | `num_upvalues` is the upvalue count modulo 256; `flags` 0 and `num_constants` empty |
| Lua52.HeadRoundTrip | src/lua52.rs:20-21 | the head reads back |
| Lua52.ChunkRoundTrip | src/lua52.rs:16-109 | a prototype written in 5.2 field order reads back whole, children included |
| Lua52.ProtoListRoundTrip | src/lua52.rs:48-52 | a written list of sub-prototypes reads back |
| Lua53.ReadSize | src/lua53.rs:6-12 | a size always consumes input and is below 2^64; failure is a reject |
| Lua53.LoadString | src/lua53.rs:5-17 | `load_string` always consumes input and only rejects |
| Lua53.SizeRoundTrip | src/lua53.rs:6-12 | every size below 2^64 reads back, escaped when at least `0xFF` |
| Lua53.StringRoundTrip | src/lua53.rs:5-17 | a written string, length `n+1`, reads back as its `n` bytes |
| Lua53.StringAbsent | src/lua53.rs:13-15 | size 0 gives the empty string |
| Lua53.LuaLocal | src/lua53.rs:19-28 | a local is a `load_string` name and two `lua_int`s; register 0 |
| Lua53.LocalRoundTrip | src/lua53.rs:19-28 | a written local reads back |
| Lua53.LeU8MinusOne | src/lua53.rs:144-147 | succeeds iff a nonzero byte remains, giving that byte minus one; a zero byte panics on the `u8` underflow |
| Lua53.LoadConstant | src/lua53.rs:57-66 | the constant `alt` always consumes input |
| Lua53.ConstantIsTagSwitch | src/lua53.rs:57-66 | the `alt` of `take_lv_*` is a switch on the first byte: 0 nil, 1 bool, 3 float, 0x13 integer, 0x04 and 0x14 string |
| Lua53.ZeroSizeStringPanics | src/lua53.rs:144-156 | a string constant of length byte 0 panics, so `alt` gives up |
| Lua53.ConstantRoundTrip | src/lua53.rs:129-161 | each constant a length byte can describe reads back |
| Lua53.ByTagRoundTrip | src/lua53.rs:129-161 | the tag switch reads back each written constant |
| Lua53.LongStringMisread | src/lua53.rs:149-156 | a string of 254 bytes or more, written as `load_string` expects, does not read back: `0xFF` is taken as length 254 |
| Lua53.IntendedStringRoundTrip | src/lua53.rs:5-17 | read with `load_string`, as elsewhere in the file, every such string reads back |
| Lua53.ConstantsRoundTrip | src/lua53.rs:57-67 | a written constant list reads back |
| Lua53.DebugInfo | src/lua53.rs:75-86 | the source lines, locals and upvalue names always consume input |
| Lua53.DebugRoundTrip | src/lua53.rs:75-86 | the written debug lists read back |
| Lua53.LocalsRoundTrip | src/lua53.rs:80-81 | a written local list reads back |
| Lua53.NamesRoundTrip | src/lua53.rs:82-86 | a written upvalue-name list reads back |
| Lua53.DecodeChunk | src/lua53.rs:30-127 | `num_upvalues` is the upvalue count modulo 256; `flags` 0 and `num_constants` empty |
| Lua53.HeadRoundTrip | src/lua53.rs:34-42 | name, line range and three bytes read back |
| Lua53.ChunkRoundTrip | src/lua53.rs:30-127 | a prototype written in 5.3 field order reads back whole, children included |
| Lua53.ProtoListRoundTrip | src/lua53.rs:70-74 | a written list of sub-prototypes reads back |
| Lua54.DecodeUnsigned | src/lua54.rs:4-21 | `load_unsigned` always consumes input; its value is below `128 * (limit >> 7)`; failure is a reject |
| Lua54.LoadUnsigned | src/lua54.rs:4-21 | the loop computes `DecodeUnsigned` |
| Lua54.GroupsShape | src/lua54.rs:14 | the encoder's leading groups are 7-bit digits, most significant first, of the value |
| Lua54.UnsignedRoundTrip | src/lua54.rs:4-21 | every value whose leading part is below `limit >> 7` reads back |
| Lua54.UnsignedRefusesLarge | src/lua54.rs:11-13 | every larger value is refused by the overflow guard |
| Lua54.UnsignedInverse | src/lua54.rs:4-21 | an accepted input without leading zero groups is exactly the encoding of its value |
| Lua54.DecodedParts | src/lua54.rs:8-18 | the value is the high-bit-clear groups, then the final byte with the high bit, MSB first |
| Lua54.LoadSize | src/lua54.rs:23-25 | `load_size` values are below 2^64 - 128, the bound the overflow guard leaves for `!0` |
| Lua54.LuaInt | src/lua54.rs:27-29 | `lua_int` values are below 0x7FFF_FF80, so below 2^31 |
| Lua54.LoadSizeRoundTrip | src/lua54.rs:23-25 | every size below 2^64 - 128 reads back |
| Lua54.LuaIntRoundTrip | src/lua54.rs:27-29 | every value below 0x7FFF_FF80 (leading part below `i32::MAX >> 7`) reads back |
| Lua54.LoadString | src/lua54.rs:31-37 | `load_string` always consumes input and only rejects |
| Lua54.LoadStringRoundTrip | src/lua54.rs:31-37 | a written string of length `n+1` reads back as its `n` bytes |
| Lua54.LoadStringAbsent | src/lua54.rs:33-35 | length 0 is the empty string |
| Lua54.LoadUpvalue | src/lua54.rs:39-45 | an upvalue is three bytes |
| Lua54.UpvalueRoundTrip | src/lua54.rs:39-45 | every upvalue reads back: `on_stack`, `id` and `kind` |
| Lua54.LuaLocal | src/lua54.rs:47-56 | a local's pcs are `lua_int` values; register 0 |
| Lua54.LocalRoundTrip | src/lua54.rs:47-56 | a written local reads back |
| Lua54.SourceLineRoundTrip | src/lua54.rs:95-99 | an absolute line pair reads back |
| Lua54.LoadConstant | src/lua54.rs:76-86 | the constant `alt` always consumes input and only rejects |
| Lua54.ConstantIsTagSwitch | src/lua54.rs:76-86 | the `alt` is a switch on the first byte: 0x00 nil, 0x01 false, 0x11 true, 0x13 float, 0x04 and 0x14 string, 0x03 integer |
| Lua54.ConstantRoundTrip | src/lua54.rs:147-175 | each written constant reads back |
| Lua54.ByTagRoundTrip | src/lua54.rs:147-175 | the tag switch reads back each written constant |
| Lua54.LengthCountRoundTrip | src/lua54.rs:74-103 | `length_count(lua_int, p)` reads back a written list whenever `p` reads back each item |
| Lua54.InstructionsRoundTrip | src/lua54.rs:74-75 | a written instruction list reads back |
| Lua54.ReadChunkHead | src/lua54.rs:62-66 | the line range is made of `lua_int` values |
| Lua54.ConstantsRoundTrip | src/lua54.rs:76-87 | a written constant list reads back |
| Lua54.UpvaluesRoundTrip | src/lua54.rs:88 | a written upvalue list reads back |
| Lua54.SourceLinesRoundTrip | src/lua54.rs:95-99 | a written absolute-line list reads back |
| Lua54.LocalsRoundTrip | src/lua54.rs:100-101 | a written local list reads back |
| Lua54.NamesRoundTrip | src/lua54.rs:102-103 | a written upvalue-name list reads back |
| Lua54.DebugRoundTrip | src/lua54.rs:94-103 | line info, source lines, locals and names read back; the line info is read and dropped |
| Lua54.DecodeChunk | src/lua54.rs:58-145 | `num_upvalues` is the upvalue count modulo 256; `flags` 0 and `num_constants` empty |
| Lua54.HeadRoundTrip | src/lua54.rs:62-66 | the head reads back |
| Lua54.ChunkRoundTrip | src/lua54.rs:58-145 | a prototype written in 5.4 field order reads back whole, children included |
| Lua54.ProtoListRoundTrip | src/lua54.rs:89-93 | a written list of sub-prototypes reads back |
| LuaJit.Uleb33 | src/luajit.rs:28-46 | a first byte below 0x80 gives `b0 >> 1` and consumes one byte |
| LuaJit.Uleb128_33 | src/luajit.rs:28-46 | the loop computes `Uleb33`: the shifted groups of the bytes consumed so far, the last OR taken from the byte read one round earlier |
| LuaJit.Uleb33Intended | src/luajit.rs:28-46 | the reading of LuaJIT's own `lj_buf_ruleb128_33`: it always consumes input and only rejects |
| LuaJit.EncodeUleb33 | src/luajit.rs:189-190 | the writer stores the number flag in bit 0 of the first byte |
| LuaJit.Uleb33IntendedRoundTrip | src/luajit.rs:28-46 | the intended reading round-trips every 32-bit value, with either flag |
| LuaJit.Uleb33RoundTripShort | src/luajit.rs:28-46 | the code as written round-trips every value of one or two bytes (below 0x2000) |
| LuaJit.Uleb33Lag | tests/luajit.rs:6 | 36100 is written as three bytes; the code reads them back as 429316 |
| LuaJit.LjHeader | src/luajit.rs:48-81 | accepts iff `\x1bLJ`, a version byte 1 or 2, and a flag byte follow; consumes 5 bytes; the version is 0x11 or 0x12; byte order, stripped and FFI are flag bits 0, 1, 2; every width is 4; failure is a reject |
| LuaJit.LjHeaderRoundTrip | src/luajit.rs:48-81 | every LuaJIT header reads back from its five bytes |
| LuaJit.LjHeaderDropsHighFlags | src/luajit.rs:55-62 | the header keeps only the low three flag bits |
| LuaJit.CombineSplit | src/luajit.rs:151-159 | `combine_number` is a bijection between `(lo, hi)` pairs and 64-bit patterns, in both byte orders |
| LuaJit.LjNumConstant | src/luajit.rs:185-199 | bit 0 of the first byte selects: clear gives `Integer(lo)` zero-extended; set reads a LEB128 `hi` and gives the float `combine_number(lo, hi)`; it panics only when `uleb128_33` does |
| LuaJit.LjNumConstantRoundTrip | src/luajit.rs:185-199 | integers and floats whose `lo` fits two bytes read back |
| LuaJit.LjNumConstantMisreads | tests/luajit.rs:6 | the numeric constant 36100 of the test decodes to 429316 |
| LuaJit.LjTabk | src/luajit.rs:161-183 | a table key or value is never a prototype or a table; it is a string iff `ty as u8 >= 5`, of length `ty - 5` |
| LuaJit.TabkRoundTrip | src/luajit.rs:161-183 | nil, booleans, 32-bit integers, floats, and strings whose tag has a low byte of at least 5, read back |
| LuaJit.TabkLongStringMisread | src/luajit.rs:165 | a 766-byte string starting with byte 7 has tag 771, whose low byte 3 selects the integer arm: it reads as `Integer(7)` |
| LuaJit.TabkShortTagMisread | src/luajit.rs:165 | no string whose tag has a low byte below 5 reads back as itself |
| LuaJit.TabkArmIntended | src/luajit.rs:165-181 | the intended reading matches on the whole tag: a string iff the tag is at least 5, of `ty - 5` bytes, read iff that many remain; failure is a reject |
| LuaJit.LjTabkIntended | src/luajit.rs:161-183 | `lj_tabk` with the intended tag reading: a string iff the LEB128 tag is at least 5 |
| LuaJit.TabkAgreesBelow256 | src/luajit.rs:165 | the code and the intended reading agree on every tag below 256 |
| LuaJit.TabkIntendedStringRoundTrip | src/luajit.rs:175-179 | under the intended reading every string with a 64-bit tag reads back |
| LuaJit.TabkIntendedRoundTrip | src/luajit.rs:161-183 | under the intended reading every writable constant, strings of any length included, reads back |
| LuaJit.TableOf | src/luajit.rs:133-146 | the array part drops the first element; the hash keeps the `nhash` pairs in order, followed by `(Integer 0, a0)` only when `a0` exists and is not nil |
| LuaJit.LjTab | src/luajit.rs:122-149 | a table has `max(narray - 1, 0)` array elements and `nhash` or `nhash + 1` hash pairs |
| LuaJit.LjTabRoundTrip | src/luajit.rs:122-149 | a written table (both counts below 2^32, every item writable) reads back as `TableOf(arr, hash)`: the array items after the first, and the hash pairs followed by `(Integer 0, a0)` when `a0` is not nil |
| LuaJit.ReverseReverse | src/luajit.rs:266 | reversing twice gives the list back |
| LuaJit.LjComplexConstant | src/luajit.rs:83-120 | a `CHILD` constant (`ty as u8 == 0`) pops the stack top and yields `Proto(k)`, `k` the number of children already moved; popping an empty stack rejects; a tag of exactly 4 panics; other constants leave the stack alone |
| LuaJit.KgcValuePanics | src/luajit.rs:112-117 | among the non-child arms, only tag 4 reaches `unreachable!` |
| LuaJit.KgcStringRoundTrip | src/luajit.rs:90-118 | as written, a string constant reads back iff its tag has a low byte of at least 4 |
| LuaJit.KgcArmIntended | src/luajit.rs:90-118 | the intended reading matches on the whole tag: `Proto` iff tag 0, a string iff the tag is at least 5, a panic iff tag 4, and the stack moves only for a child |
| LuaJit.LjComplexConstantIntended | src/luajit.rs:83-120 | `lj_complex_constant` with the intended tag reading: a string iff the LEB128 tag is at least 5 |
| LuaJit.KgcAgreesBelow256 | src/luajit.rs:90 | the code and the intended reading agree on every tag below 256 |
| LuaJit.KgcIntendedStringRoundTrip | src/luajit.rs:112-116 | under the intended reading every string constant with a 64-bit tag reads back and leaves the stack alone |
| LuaJit.ComplexConstants | src/luajit.rs:255-259 | reads exactly `n` constants; the `Proto` indices number the children in order, and one child moves per `Proto` |
| LuaJit.LjUpval | src/luajit.rs:246-253 | a `u16` upvalue gives `on_stack = bit 15` and `id = (v & 0x7FFF) as u8` |
| LuaJit.LjProtoHead | src/luajit.rs:207-232 | the first four bytes are the flags, parameter count, frame size and upvalue count; a stripped dump has no debug sizes (all zero) |
| LuaJit.LjProtoBody | src/luajit.rs:233-289 | the complex constants are reversed; `last_line = line_defined + numline`, panicking past 2^64; each list has its declared length; the children come off the stack |
| LuaJit.LjProto | src/luajit.rs:201-291 | a size of 0 yields `None` and leaves the stack alone |
| LuaJit.ProtoIndexInRange | src/luajit.rs:104-111 | in a decoded prototype tree every `Proto` constant names one of its children |
| LuaJit.LjProtoLoopTrees | src/luajit.rs:304-307 | every prototype left on the stack is a well-formed tree |
| LuaJit.LjChunkName | src/luajit.rs:297-302 | a stripped dump has the empty name and reads nothing |
| LuaJit.LjChunkShape | src/luajit.rs:293-319 | a decoded chunk is the named root of a prototype tree; the terminating size 0 stays unconsumed |
| LuaJit.LjChunk | src/luajit.rs:293-319 | the `while let` loop computes `LjChunkSpec`: exactly one prototype is left, and it becomes the root |
| LuaJit.FromBits | src/lib.rs:198-200 | `ProtoFlags::from_bits` is defined iff no bit above 0x0F is set, and it inverts `bits` |
| LuaJit.FromBitsRoundTrip | src/luajit.rs:321-330 | every flag set survives `bits` then `from_bits` |
| LuaJit.FlagsAreBits | src/luajit.rs:323-328 | each flag is its own bit, and `HAS_ILOOP` is the bit of `JIT_DISABLED` |
| LuaJit.ChunkFlags | src/lib.rs:198-200 | `LuaChunk::flags()` is defined iff the flags byte is below 16, and then holds those bits; `None` stands for the `unwrap` panic |
| Luau.DecodeVarint | src/luau.rs:5-21 | succeeds iff the group run ends within the first 10 bytes; the rest follows it; a longer run panics on the 70-bit shift |
| Luau.Varint | src/luau.rs:5-21 | the loop computes `DecodeVarint` |
| Luau.VarintRoundTrip | src/luau.rs:5-21 | every 64-bit value written as standard LEB128 reads back |
| Luau.VarintIsLeb128 | src/luau.rs:5-21 | wherever LEB128 is defined and the group run ends within the first ten bytes, `varint` agrees with it |
| Luau.VarintWraps | src/luau.rs:12 | a 10-byte input that does not fit 64 bits is accepted with its high bits dropped, where LEB128 refuses it |
| Luau.LuauString | src/luau.rs:23-31 | index 0 is the empty string, `i >= 1` is `stable[i-1]`, and an index past the table panics |
| Luau.StringRoundTrip | src/luau.rs:23-31 | index `i + 1` names entry `i` |
| Luau.DecodeTable | src/luau.rs:41-56 | a table has `numk` hash entries whose keys are constants decoded earlier, and no array part |
| Luau.TableEntriesShape | src/luau.rs:48-54 | each entry is `(k[ik], Integer 0)`, in order, after those already read |
| Luau.TableEntriesRoundTrip | src/luau.rs:48-54 | a list of in-range key indices reads back as their entries |
| Luau.Table | src/luau.rs:41-56 | the `for` loop computes `DecodeTable` |
| Luau.ConstantArm | src/luau.rs:69-85 | a tag above 6 panics; `Proto` iff tag 6, string iff tag 3, and table keys come from earlier constants; a boolean is one byte read as `b != 0`; an import reads a big-endian `u32` and yields nil; both reject short input |
| Luau.ConstantsShape | src/luau.rs:64-87 | the loop appends exactly `num` constants after those already read |
| Luau.ConstantsKeys | src/luau.rs:78-81 | every table constant refers only to constants earlier in the list |
| Luau.DecodeConstants | src/luau.rs:58-89 | exactly `num` constants, the table keys taken from earlier entries |
| Luau.Constants | src/luau.rs:58-89 | the `for` loop computes `DecodeConstants` |
| Luau.ConstantRoundTrip | src/luau.rs:70-82 | nil, booleans, doubles and closures read back through their tag |
| Luau.ConstantsRoundTrip | src/luau.rs:58-89 | a written list of such constants reads back |
| Luau.StringEntry | src/luau.rs:97-100 | a string-table entry is a `varint` length and that many bytes |
| Luau.StringTable | src/luau.rs:94-103 | the string table has exactly `count` entries |
| Luau.StringEntryRoundTrip | src/luau.rs:97-100 | a written entry reads back |
| Luau.StringTableRoundTrip | src/luau.rs:94-103 | a written table reads back in order |
| Luau.Instructions | src/luau.rs:117 | exactly the `varint` count of little-endian words |
| Luau.InstructionsRoundTrip | src/luau.rs:117 | a written list of instruction words reads back |
| Luau.ChildrenConserved | src/luau.rs:119 | moving children out keeps the table size, and children plus table hold the old table plus one empty chunk per move |
| Luau.Children | src/luau.rs:119 | the same, for the whole child list |
| Luau.TakeTwice | src/luau.rs:119 | the second reference to a slot yields the empty default chunk |
| Luau.TakeChildren | src/luau.rs:119 | the loop computes `Children` |
| Luau.LineInfo | src/luau.rs:125-131 | line info succeeds iff `n > 0`, `linegaplog2 < 64` and `1 + n + 4 * (((n-1) >> lg) + 1)` bytes remain; `n = 0` and wide shifts panic |
| Luau.OptionalLineInfo | src/luau.rs:125 | no line info is read when `has_lineinfo` is 0 |
| Luau.Locals | src/luau.rs:138-149 | exactly the counted locals |
| Luau.UpvalueNames | src/luau.rs:150 | exactly the counted names |
| Luau.DebugInfo | src/luau.rs:133-152 | with `has_debuginfo` 0 both lists are empty and one byte is read |
| Luau.LocalEntryRoundTrip | src/luau.rs:140-147 | a written local reads back: the string-table reference `i + 1` names entry `i`, then the two pcs and the register |
| Luau.LocalsRoundTrip | src/luau.rs:138-149 | a written list of locals reads back in order |
| Luau.UpvalueNamesRoundTrip | src/luau.rs:150 | a written list of upvalue-name references reads back as the names in order |
| Luau.DebugInfoRoundTrip | src/luau.rs:133-152 | under any positive flag byte, the written locals and upvalue names read back |
| Luau.DecodeProto | src/luau.rs:111-177 | one prototype: its header fields, and `is_vararg > 0` as `Some{true, true}`; the table is conserved as by `Children` |
| Luau.ProtoBody | src/luau.rs:115-176 | the same, after the four header bytes |
| Luau.ReadProto | src/luau.rs:111-177 | the loop body computes `DecodeProto` |
| Luau.ProtoRound | src/luau.rs:111-178 | each round appends exactly one prototype |
| Luau.ReadProtos | src/luau.rs:106-178 | the `for` loop computes `ProtosRead` |
| Luau.SelectRoot | src/luau.rs:180-184 | the root is `protos[mainid]` and is non-empty; an index out of range or an empty root panics |
| Luau.TakeRoot | src/luau.rs:180-184 | computes `SelectRoot` |
| Luau.DecodeBytecode | src/luau.rs:91-185 | a decoded file's root has instructions |
| Luau.Bytecode | src/luau.rs:91-185 | `bytecode` computes `DecodeBytecode` |

## Left out

- The `Debug`, `Display` and serde (msgpack) implementations are formatting and foreign serialisation: src/lib.rs:72-79, 108-130, 177-191 and 469-478. `log::trace!` produces no value.
- src/utils.rs is not part of this model. It renders literals and identifiers with Unicode character classes and float formatting from the standard library.
- `ErrorTree` contexts are not modelled, nor the message `parse` formats from them, nor the byte offsets it prints. A failure is only `Reject` or `Panic`.
- nom's `Err::Incomplete` is modelled as `Reject`. `length_data` on short input (src/lua51.rs:4, src/lua53.rs:152) reports `Incomplete`, which `alt` does not retry. The constant `alt`s choose their arm by a tag that is already read, so an arm that fails inside `length_data` is the only arm whose tag matches. Folding the two kinds therefore changes no outcome.
- `String::from_utf8_lossy` is not modelled: local names are kept as their bytes, and so is `LuaChunk::name`.
- Floats are bit patterns, not IEEE arithmetic. The `f32` widened to `f64` at src/lib.rs:437 is kept as its own 32-bit pattern (`F32`).
- `Decoder.LuaBytecode`: `cfg!(target_endian)` becomes the parameter `hostBig`.
- `nom_leb128` is not shown. It is taken to be standard unsigned LEB128 that rejects truncated input and values too wide for the target. The model puts no cap on the number of bytes read: redundant high zero groups of any length are accepted (`[0x80, 0x00]` reads as 0, as `[0x00]` does).
- `as usize` is the identity, as on a 64-bit host.
- `Rc` sharing and `RefCell` mutation become values. The LuaJIT stack and child list are threaded through the functions. The Luau prototype table is a `seq` that `mem::take` updates by index.
- `Vec::with_capacity` sizes are not modelled. tests/luau.rs runs an external compiler.
- `Lua51.ChunkRoundTrip`, `Lua52.ChunkRoundTrip`, `Lua53.ChunkRoundTrip` and `Lua54.ChunkRoundTrip` cover only prototypes whose counts and values fit the widths the header fixes, written by the writer that each module defines.
- `Lua51.ConstantRoundTrip`: 5.1 numbers round-trip in the layout the code reads, swapped widths included.
- `Lua53.ConstantRoundTrip`: strings round-trip only when shorter than 254 bytes (see `Lua53.LongStringMisread`). Integer constants are 8-byte little-endian, as the code reads them.
- `Lua54.DebugRoundTrip`: the line-info bytes are read and dropped, so the writer emits an empty line-info list and the round trip does not cover the dropped bytes.
- `LuaJit.Uleb33RoundTripShort`: the code as written round-trips only values below 0x2000. Longer values are refuted by `LuaJit.Uleb33Lag` and covered by `LuaJit.Uleb33IntendedRoundTrip`.
- `LuaJit.LjNumConstantRoundTrip`: for the same reason, it covers only `lo` values below 0x2000.
- `LuaJit.TabkRoundTrip`: strings whose tag has a low byte below 5 do not read back; `LuaJit.TabkShortTagMisread` shows this for every such string, `LuaJit.TabkLongStringMisread` gives one concrete case, and `LuaJit.TabkIntendedRoundTrip` covers them under the intended reading.
- `LuaJit.LjChunk`: no writer for LuaJIT dumps is modelled. The decoder is stated against its specification function and the tree shape it builds.
- `LuaJit.LjProtoHead`, `LuaJit.LjProtoBody`, `LuaJit.LjProto`, `LuaJit.ComplexConstants` and `LuaJit.LjComplexConstant`: no writer for these prototype-level readers is modelled, except for strings (`LuaJit.KgcStringRoundTrip`). Their contracts state the field values and counts, the numbering of child constants, and the stack moves.
- `Luau.ConstantsRoundTrip`: covers nil, boolean, double and closure constants only. String and table constants are stated by `Luau.LuauString` and `Luau.DecodeTable` without a writer, and import constants by `Luau.ConstantArm`, which reads them as nil so that they cannot round-trip.
- `Luau.DecodeBytecode`: no writer for whole Luau files is modelled. The decoder is stated through the root it selects (`Luau.SelectRoot`), the conservation of the prototype table (`Luau.ChildrenConserved`, `Luau.ProtoRound`) and what a second reference yields (`Luau.TakeTwice`).
- `Luau.LineInfo`: the line-info values themselves are discarded by the source and not kept. No writer for line info is modelled; its contract states the bytes it reads and its panics.
- `Luau.DecodeProto` and `Luau.ProtoBody`: no writer for whole Luau prototypes is modelled. Their parts round-trip on their own: instructions (`Luau.InstructionsRoundTrip`), constants (`Luau.ConstantsRoundTrip`) and debug information (`Luau.DebugInfoRoundTrip`).
- `Decoder.Lua51FileRoundTrip`: a header writer exists only for 5.1. The other dialects round-trip from the prototype down.

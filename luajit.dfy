/**
 * The LuaJIT bytecode dump reader (src/luajit.rs): the `\x1bLJ` header, the
 * 33-bit ULEB128 of numeric constants, table and complex constants, and the
 * prototype stream from which the prototype tree is rebuilt children first.
 *
 * The shared prototype stack (a `RefCell<Vec<LuaChunk>>` in the source) and
 * each prototype's list of children are threaded through the readers as
 * values: a reader takes them and returns their new contents.
 */
module LuaJit {
  import opened LuaTypes
  import opened Primitives
  import opened Leb128

  /** `\x1bLJ`. */
  const LjSignature: Bytes := [0x1B, 0x4C, 0x4A]

  // ----- uleb128_33 (src/luajit.rs:28-46) -----

  /**
   * The base-128 groups the loop of `uleb128_33` ORs in after `j` rounds:
   * the second byte (peeked before the loop), then in each later round the
   * byte consumed by the round before.
   */
  function Lagged(s: Bytes, j: nat): Bytes
    requires 2 <= |s| && j <= |s|
  {
    if j == 0 then [] else [s[1]] + s[1..j]
  }

  /**
   * `uleb128_33` as written. The first byte carries six payload bits above
   * its low bit; when they reach 0x40 the value continues in the following
   * bytes. Round `j` of the loop shifts by `7 * j - 1`, so a fifth round
   * shifts a `u32` by 34 and panics; a `u32` shift drops the bits above 31.
   */
  function Uleb33(s: Bytes): (r: Result<uint32>)
    ensures Shorter(r, s)
    ensures r.Ok? && s[0] / 2 < 64 ==> r.value == s[0] / 2 && r.rest == s[1..]
  {
    if |s| == 0 then Err(Reject)
    else if s[0] / 2 < 64 then Ok(s[0] / 2, s[1..])
    else if |s| == 1 then Err(Reject)
    else
      var k := 1 + RunEnd(s[1..]);
      if k >= 5 then Err(Panic)
      else if k >= |s| then Err(Reject)
      else Ok((s[0] / 2 % 64 + 64 * Digits(Lagged(s, k))) % TWO_32, s[k + 1..])
  }

  /** One round of the loop: OR-ing in the lagged group extends the closed form by one digit. */
  lemma LaggedStep(s: Bytes, j: nat, p: uint8, v: int)
    requires 2 <= |s| && j + 1 <= |s|
    requires p == if j == 0 then s[1] else s[j]
    requires v == (s[0] / 2 % 64 + 64 * Digits(Lagged(s, j))) % TWO_32
    ensures (v + (p % 128) * Pow2(7 * j + 6)) % TWO_32 ==
            (s[0] / 2 % 64 + 64 * Digits(Lagged(s, j + 1))) % TWO_32
  {
    LaggedSnoc(s, j, p);
    Pow2Groups(j, 6);
    Pow2Six();
    AccumulateStep(s[0] / 2 % 64, Digits(Lagged(s, j)), p % 128, Pow128(j), Pow2(7 * j + 6));
  }

  /** The lagged groups after one more round: the byte the round ORs in, as the last digit. */
  lemma LaggedSnoc(s: Bytes, j: nat, p: uint8)
    requires 2 <= |s| && j + 1 <= |s|
    requires p == if j == 0 then s[1] else s[j]
    ensures Digits(Lagged(s, j + 1)) == Digits(Lagged(s, j)) + (p % 128) * Pow128(j)
  {
    var lagged := Lagged(s, j);
    assert |lagged| == j;
    assert Lagged(s, j + 1) == lagged + [p];
    DigitsSnoc(lagged, p);
  }

  lemma Pow2Six()
    ensures Pow2(6) == 64
  {
    assert Pow2(0) == 1;
  }

  lemma AccumulateStep(low: int, d: int, g: int, w: int, shifted: int)
    requires shifted == 64 * w
    ensures ((low + 64 * d) % TWO_32 + g * shifted) % TWO_32 == (low + 64 * (d + g * w)) % TWO_32
  {
    assert 64 * (d + g * w) == 64 * d + g * shifted;
    ModAdd32(low + 64 * d, g * shifted);
  }

  /** The loop of `uleb128_33`, round by round, against its closed form `Uleb33`. */
  method Uleb128_33(input0: Bytes) returns (r: Result<uint32>)
    ensures r == Uleb33(input0)
  {
    if |input0| == 0 {
      return Err(Reject);
    }
    var input := input0[1..];
    var v: int := input0[0] / 2;
    if v >= 0x40 {
      var sh := -1;
      v := v % 64;
      if |input| == 0 {
        return Err(Reject);
      }
      var p := input[0];
      ghost var j: nat := 0;
      while true
        invariant j <= 4 && sh == 7 * j - 1
        invariant 2 <= |input0| && j + 1 <= |input0| && input == input0[j + 1..]
        invariant p == if j == 0 then input0[1] else input0[j]
        invariant forall i :: 0 <= i < j ==> input0[1..][i] >= 128
        invariant v == (input0[0] / 2 % 64 + 64 * Digits(Lagged(input0, j))) % TWO_32
        decreases |input|
      {
        sh := sh + 7;
        if sh >= 32 {
          // a shift of 32 bits or more overflows
          RunEndAtLeast(input0[1..], 4);
          return Err(Panic);
        }
        // the groups occupy disjoint bits, so the OR is a sum; `<<` keeps 32 bits
        LaggedStep(input0, j, p, v);
        v := (v + (p % 128) * Pow2(sh)) % TWO_32;
        if |input| == 0 {
          RunEndIsFirst(input0[1..], j);
          return Err(Reject);
        }
        p, input := input[0], input[1..];
        j := j + 1;
        if p < 128 {
          RunEndIsFirst(input0[1..], j - 1);
          break;
        }
      }
    }
    return Ok(v, input);
  }

  /**
   * The reading the LuaJIT writer pairs with: the same six low bits, then
   * the continuation groups of the bytes that follow, each byte read once.
   * A value needing more than four continuation groups is malformed.
   */
  function Uleb33Intended(s: Bytes): (r: Result<uint32>)
    ensures Shorter(r, s)
    ensures r.Err? ==> r.failure == Reject
  {
    if |s| == 0 then Err(Reject)
    else if s[0] / 2 < 64 then Ok(s[0] / 2, s[1..])
    else
      var k := 1 + RunEnd(s[1..]);
      if k >= |s| || k >= 5 then Err(Reject)
      else Ok((s[0] / 2 % 64 + 64 * Digits(s[1..k + 1])) % TWO_32, s[k + 1..])
  }

  /** The writer's encoding of `v`, whose first byte carries the `isnum` flag in its low bit. */
  function EncodeUleb33(v: uint32, isnum: bool): (bs: Bytes)
    ensures |bs| >= 1 && bs[0] % 2 == (if isnum then 1 else 0)
  {
    var flag := if isnum then 1 else 0;
    if v < 64 then [2 * v + flag]
    else [2 * (v % 64) + flag + 128] + Encode(v / 64)
  }

  lemma Pow128Four()
    ensures Pow128(4) == 0x1000_0000
  {
    calc {
      Pow128(4);
      128 * Pow128(3);
      128 * (128 * Pow128(2));
      128 * (128 * (128 * Pow128(1)));
    }
  }

  /** The intended reading inverts the writer for every 32-bit value. */
  lemma Uleb33IntendedRoundTrip(v: uint32, isnum: bool, rest: Bytes)
    ensures Uleb33Intended(EncodeUleb33(v, isnum) + rest) == Ok(v, rest)
  {
    if v >= 64 {
      Uleb33IntendedLong(v, isnum, rest);
    }
  }

  lemma FirstByteHalf(v: nat, flag: nat)
    requires flag < 2
    ensures (2 * (v % 64) + flag + 128) / 2 == v % 64 + 64
    ensures (v % 64 + 64) / 2 >= 0 && (v % 64 + 64) % 64 == v % 64
  {
  }

  lemma Uleb33IntendedLong(v: uint32, isnum: bool, rest: Bytes)
    requires v >= 64
    ensures Uleb33Intended(EncodeUleb33(v, isnum) + rest) == Ok(v, rest)
  {
    var flag := if isnum then 1 else 0;
    var s := EncodeUleb33(v, isnum) + rest;
    var tail := Encode(v / 64);
    assert s[0] == 2 * (v % 64) + flag + 128;
    FirstByteHalf(v, flag);
    assert s[1..] == tail + rest;
    EncodeShape(v / 64, rest);
    Pow128Four();
    EncodeLength(v / 64, 4);
    var k := 1 + RunEnd(s[1..]);
    assert k == |tail|;
    assert s[1..k + 1] == tail;
    assert s[k + 1..] == rest;
    var w := s[0] / 2 % 64 + 64 * Digits(s[1..k + 1]);
    assert w == v % 64 + 64 * (v / 64);
    assert w % TWO_32 == v;
  }

  /** As written, the reading inverts the writer as long as at most one continuation byte is used. */
  lemma Uleb33RoundTripShort(v: uint32, isnum: bool, rest: Bytes)
    requires v < 0x2000
    ensures Uleb33(EncodeUleb33(v, isnum) + rest) == Ok(v, rest)
  {
    var s := EncodeUleb33(v, isnum) + rest;
    if v >= 64 {
      var flag := if isnum then 1 else 0;
      assert s[0] == 2 * (v % 64) + flag + 128;
      assert s[0] / 2 == v % 64 + 64;
      assert Encode(v / 64) == [v / 64];
      assert v == v % 64 + 64 * (v / 64);
      assert s[1..] == [v / 64] + rest;
      assert RunEnd(s[1..]) == 0;
      assert Lagged(s, 1) == [v / 64];
      assert [v / 64][1..] == [];
      assert Digits([v / 64]) == v / 64;
      assert s[0] / 2 % 64 + 64 * Digits(Lagged(s, 1)) == v;
      assert s[2..] == rest;
    }
  }

  /**
   * From the third byte on, the loop ORs in the byte consumed a round
   * earlier: the three bytes the writer produces for 36100 (tests/luajit.rs:6)
   * read back as 429316.
   */
  lemma Uleb33Lag()
    ensures EncodeUleb33(36100, false) == [0x88, 0xB4, 0x04]
    ensures Uleb33Intended([0x88, 0xB4, 0x04]) == Ok(36100, [])
    ensures Uleb33([0x88, 0xB4, 0x04]) == Ok(429316, [])
  {
    LagWritten();
    LagIntended();
    LagRead();
  }

  lemma LagWritten()
    ensures EncodeUleb33(36100, false) == [0x88, 0xB4, 0x04]
  {
    assert Encode(564) == [0xB4, 0x04];
  }

  lemma LagIntended()
    ensures Uleb33Intended([0x88, 0xB4, 0x04]) == Ok(36100, [])
  {
    var s: Bytes := [0x88, 0xB4, 0x04];
    assert RunEnd(s[1..]) == 1;
    assert s[1..3] == [0xB4, 0x04];
    assert s[3..] == [];
  }

  lemma LagRead()
    ensures Uleb33([0x88, 0xB4, 0x04]) == Ok(429316, [])
  {
    var s: Bytes := [0x88, 0xB4, 0x04];
    assert RunEnd(s[1..]) == 1;
    assert Lagged(s, 2) == [0xB4, 0xB4];
    assert s[3..] == [];
  }

  // ----- lj_header (src/luajit.rs:48-81) -----

  /**
   * `lj_header`: the signature, the dump version 1 or 2, and the flags
   * byte, whose bits 0, 1 and 2 mark a big-endian, a stripped and an FFI
   * dump. Every width is 4.
   */
  function LjHeader(s: Bytes): (r: Result<Header>)
    ensures r.Ok? <==> |s| >= 5 && s[..3] == LjSignature && (s[3] == 1 || s[3] == 2)
    ensures r.Ok? ==> r.rest == s[5..]
    ensures r.Ok? ==>
      var h := r.value;
      h.luaVersion == (if s[3] == 1 then LUAJ1 else LUAJ2) && h.formatVersion == 0 &&
      h.bigEndian == (s[4] % 2 == 1) && h.stripped == (s[4] / 2 % 2 == 1) && h.hasFfi == (s[4] / 4 % 2 == 1) &&
      h.intSize == 4 && h.sizeTSize == 4 && h.instructionSize == 4 && h.numberSize == 4 && !h.numberIntegral
    ensures r.Err? ==> r.failure == Reject
  {
    var (_, s1) :- Tag(LjSignature, s);
    assert s1 == s[3..];
    Alt(LjVersion(1, LUAJ1, s1), LjVersion(2, LUAJ2, s1))
  }

  /** One alternative of `lj_header`: the version byte `tag`, then the flags. */
  function LjVersion(tag: uint8, version: uint8, s: Bytes): Result<Header>
  {
    var (_, s1) :- Tag([tag], s);
    var (flags, s2) :- ReadU8(s1);
    Ok(Header(version, 0, flags % 2 == 1, 4, 4, 4, 4, false, flags / 2 % 2 == 1, flags / 4 % 2 == 1), s2)
  }

  /** The flags byte a LuaJIT header is written with. */
  function LjFlags(h: Header): uint8
  {
    (if h.bigEndian then 1 else 0) + (if h.stripped then 2 else 0) + (if h.hasFfi then 4 else 0)
  }

  /** A LuaJIT header as `lj_header` would describe it. */
  predicate IsLjHeader(h: Header)
  {
    (h.luaVersion == LUAJ1 || h.luaVersion == LUAJ2) && h.formatVersion == 0 &&
    h.intSize == 4 && h.sizeTSize == 4 && h.instructionSize == 4 && h.numberSize == 4 && !h.numberIntegral
  }

  /** Writing a LuaJIT header and reading it back gives the header. */
  lemma LjHeaderRoundTrip(h: Header, rest: Bytes)
    requires IsLjHeader(h)
    ensures LjHeader(LjSignature + [h.luaVersion - 0x10, LjFlags(h)] + rest) == Ok(h, rest)
  {
    var s := LjSignature + [h.luaVersion - 0x10, LjFlags(h)] + rest;
    assert s[..3] == LjSignature;
    assert s[5..] == rest;
  }

  /** Only flag bits 0 to 2 reach the header: a flags byte with higher bits set is not read back. */
  lemma LjHeaderDropsHighFlags(s: Bytes)
    requires LjHeader(s).Ok?
    ensures LjFlags(LjHeader(s).value) == s[4] % 8
  {
    LowFlagBits(s[4]);
  }

  lemma LowFlagBits(b: uint8)
    ensures (if b % 2 == 1 then 1 else 0) + (if b / 2 % 2 == 1 then 2 else 0) + (if b / 4 % 2 == 1 then 4 else 0) == b % 8
  {
    Mod8(b);
    Mod4(b / 2);
    assert b / 2 / 2 == b / 4;
  }

  lemma Mod4(n: nat)
    ensures n % 4 == n % 2 + 2 * (n / 2 % 2)
  {
  }

  lemma Mod8(n: nat)
    ensures n % 8 == n % 2 + 2 * (n / 2 % 4)
  {
  }

  // ----- numbers (src/luajit.rs:151-159, 185-199) -----

  /**
   * `combine_number`: the 64-bit pattern of a double from its two 32-bit
   * halves, `lo` high for a big-endian dump and `hi` high otherwise.
   */
  function CombineNumber(lo: uint32, hi: uint32, big: bool): uint64
  {
    if big then lo * TWO_32 + hi else hi * TWO_32 + lo
  }

  /** The two halves a writer stores for the pattern `bits`, as `(lo, hi)`. */
  function SplitNumber(bits: uint64, big: bool): (uint32, uint32)
  {
    if big then (bits / TWO_32, bits % TWO_32) else (bits % TWO_32, bits / TWO_32)
  }

  /** Combining is a bijection: splitting recovers the halves, and combining the split halves gives the pattern. */
  lemma CombineSplit(lo: uint32, hi: uint32, bits: uint64, big: bool)
    ensures SplitNumber(CombineNumber(lo, hi, big), big) == (lo, hi)
    ensures CombineNumber(SplitNumber(bits, big).0, SplitNumber(bits, big).1, big) == bits
  {
  }

  /**
   * `lj_num_constant`: the low bit of the first byte selects a double, whose
   * low half is the 33-bit-coded value and whose high half follows as a
   * ULEB128; otherwise the 33-bit-coded value is an integer, zero-extended.
   */
  function LjNumConstant(big: bool, s: Bytes): (r: Result<Number>)
    ensures Shorter(r, s)
    ensures r.Ok? ==> Uleb33(s).Ok?
    ensures r.Ok? && s[0] % 2 == 0 ==>
      r.value.Integer? && r.value.i == Uleb33(s).value && r.rest == Uleb33(s).rest
    ensures r.Ok? && s[0] % 2 == 1 ==>
      var hi := LebU32(Uleb33(s).rest);
      hi.Ok? && r.value.Float? && r.value.f.F64? &&
      r.value.f.bits64 == CombineNumber(Uleb33(s).value, hi.value, big) && r.rest == hi.rest
    ensures r.Err? ==> (r.failure == Panic <==> Uleb33(s) == Err(Panic))
  {
    if |s| == 0 then Err(Reject)
    else
      var isnum := s[0] % 2 == 1;
      var (lo, s1) :- Uleb33(s);
      if isnum then
        var (hi, s2) :- LebU32(s1);
        Ok(Float(F64(CombineNumber(lo, hi, big))), s2)
      else Ok(Integer(lo), s1)
  }

  /** The bytes a writer emits for a numeric constant: an integer below 2^32 or a double. */
  function NumConstantBytes(n: Number, big: bool): Bytes
    requires n.Integer? ==> 0 <= n.i < TWO_32
    requires n.Float? ==> n.f.F64?
  {
    match n
    case Integer(i) => EncodeUleb33(i, false)
    case Float(f) =>
      var (lo, hi) := SplitNumber(f.bits64, big);
      EncodeUleb33(lo, true) + Encode(hi)
  }

  /** The reader gives back what the writer wrote while the 33-bit-coded part needs at most one continuation byte. */
  lemma LjNumConstantRoundTrip(n: Number, big: bool, rest: Bytes)
    requires n.Integer? ==> 0 <= n.i < 0x2000
    requires n.Float? ==> n.f.F64? && SplitNumber(n.f.bits64, big).0 < 0x2000
    ensures LjNumConstant(big, NumConstantBytes(n, big) + rest) == Ok(n, rest)
  {
    match n
    case Integer(i) =>
      Uleb33RoundTripShort(i, false, rest);
    case Float(f) =>
      var (lo, hi) := SplitNumber(f.bits64, big);
      var tail := Encode(hi) + rest;
      assert NumConstantBytes(n, big) + rest == EncodeUleb33(lo, true) + tail;
      Uleb33RoundTripShort(lo, true, tail);
      LebU32RoundTrip(hi, rest);
      CombineSplit(lo, hi, f.bits64, big);
  }

  /** The integer 36100 of tests/luajit.rs:6, as the writer stores it, reads back as 429316. */
  lemma LjNumConstantMisreads(big: bool)
    ensures NumConstantBytes(Integer(36100), big) == [0x88, 0xB4, 0x04]
    ensures LjNumConstant(big, [0x88, 0xB4, 0x04]) == Ok(Integer(429316), [])
  {
    Uleb33Lag();
  }

  // ----- table constants (src/luajit.rs:122-149, 161-183) -----

  /**
   * `lj_tabk`: a ULEB128 tag whose low byte (`ty as u8`) selects nil,
   * false, true, an integer, a double, or else a string of `ty - 5` bytes.
   * The `unreachable!` arm cannot be reached: a low byte of 5 or more means
   * `ty >= 5`.
   */
  function LjTabk(big: bool, s: Bytes): (r: Result<Constant>)
    ensures Shorter(r, s)
    ensures r.Err? ==> r.failure == Reject
    ensures r.Ok? ==> LebU64(s).Ok? && !r.value.Proto? && !r.value.Table?
    ensures r.Ok? ==> (r.value.Str? <==> LebU64(s).value % 256 >= 5)
    ensures r.Ok? && r.value.Str? ==> |r.value.bytes| == LebU64(s).value - 5
  {
    var (ty, s1) :- LebU64(s);
    TabkArm(big, ty, s1)
  }

  /** The arm of `lj_tabk` the tag `ty` selects, applied to the input after the tag. */
  function TabkArm(big: bool, ty: uint64, s: Bytes): (r: Result<Constant>)
    ensures NoLonger(r, s)
    ensures r.Err? ==> r.failure == Reject
    ensures r.Ok? ==> !r.value.Proto? && !r.value.Table?
    ensures r.Ok? ==> (r.value.Str? <==> ty % 256 >= 5)
    ensures r.Ok? && r.value.Str? ==> |r.value.bytes| == ty - 5
  {
    var sel := ty % 256;
    if sel == 0 then Ok(Null, s)
    else if sel == 1 then Ok(Bool(false), s)
    else if sel == 2 then Ok(Bool(true), s)
    else if sel == 3 then
      var (n, s1) :- LebU32(s);
      Ok(Number(Integer(n)), s1)
    else if sel == 4 then
      var (lo, s1) :- LebU32(s);
      var (hi, s2) :- LebU32(s1);
      Ok(Number(Float(F64(CombineNumber(lo, hi, big)))), s2)
    else
      var (bs, s1) :- Take(ty - 5, s);
      Ok(Str(bs), s1)
  }

  /** A constant `lj_tabk` can read back: a string's tag must keep a low byte of 5 or more. */
  predicate TabkWritable(c: Constant)
  {
    match c
    case Null => true
    case Bool(_) => true
    case Number(n) => (n.Integer? && 0 <= n.i < TWO_32) || (n.Float? && n.f.F64?)
    case Str(bs) => |bs| + 5 < TWO_64 && (|bs| + 5) % 256 >= 5
    case _ => false
  }

  /** The bytes a LuaJIT writer emits for a table key or value. */
  function TabkBytes(c: Constant, big: bool): Bytes
    requires c.Null? || c.Bool? || c.Number? || c.Str?
    requires c.Number? ==> (c.n.Integer? ==> 0 <= c.n.i < TWO_32) && (c.n.Float? ==> c.n.f.F64?)
  {
    match c
    case Null => Encode(0)
    case Bool(b) => Encode(if b then 2 else 1)
    case Number(n) =>
      (match n
       case Integer(i) => Encode(3) + Encode(i)
       case Float(f) =>
         var (lo, hi) := SplitNumber(f.bits64, big);
         Encode(4) + Encode(lo) + Encode(hi))
    case Str(bs) => Encode(|bs| + 5) + bs
  }

  /** `lj_tabk` reads back every constant it can represent. */
  lemma TabkRoundTrip(c: Constant, big: bool, rest: Bytes)
    requires TabkWritable(c)
    ensures LjTabk(big, TabkBytes(c, big) + rest) == Ok(c, rest)
  {
    match c
    case Null => TabkTagRoundTrip(c, big, rest);
    case Bool(b) => TabkTagRoundTrip(c, big, rest);
    case Number(n) =>
      if n.Integer? {
        TabkIntegerRoundTrip(n.i, big, rest);
      } else {
        TabkFloatRoundTrip(n.f.bits64, big, rest);
      }
    case Str(bs) => TabkStringRoundTrip(bs, big, rest);
  }

  /** `lj_tabk` on a written tag runs the arm of that tag on what follows. */
  lemma TabkUnfold(big: bool, ty: uint64, tail: Bytes)
    ensures LjTabk(big, Encode(ty) + tail) == TabkArm(big, ty, tail)
  {
    LebU64RoundTrip(ty, tail);
  }

  lemma TabkTagRoundTrip(c: Constant, big: bool, rest: Bytes)
    requires c == Null || c.Bool?
    ensures LjTabk(big, TabkBytes(c, big) + rest) == Ok(c, rest)
  {
    var tag := if c == Null then 0 else if c == Bool(false) then 1 else 2;
    assert TabkBytes(c, big) == Encode(tag);
    TabkUnfold(big, tag, rest);
    TabkTagArm(c, tag, big, rest);
  }

  lemma TabkTagArm(c: Constant, tag: uint64, big: bool, rest: Bytes)
    requires tag == (if c == Null then 0 else if c == Bool(false) then 1 else 2)
    requires c == Null || c.Bool?
    ensures TabkArm(big, tag, rest) == Ok(c, rest)
  {
    if c == Null {
      assert 0 % 256 == 0;
    } else if c == Bool(false) {
      assert 1 % 256 == 1;
    } else {
      assert 2 % 256 == 2;
    }
  }

  lemma TabkIntegerArm(i: uint32, big: bool, rest: Bytes)
    ensures TabkArm(big, 3, Encode(i) + rest) == Ok(Number(Integer(i)), rest)
  {
    LebU32RoundTrip(i, rest);
  }

  lemma TabkIntegerRoundTrip(i: uint32, big: bool, rest: Bytes)
    ensures LjTabk(big, TabkBytes(Number(Integer(i)), big) + rest) == Ok(Number(Integer(i)), rest)
  {
    assert TabkBytes(Number(Integer(i)), big) + rest == Encode(3) + (Encode(i) + rest);
    TabkUnfold(big, 3, Encode(i) + rest);
    TabkIntegerArm(i, big, rest);
  }

  lemma TabkFloatArm(lo: uint32, hi: uint32, big: bool, rest: Bytes)
    ensures TabkArm(big, 4, Encode(lo) + (Encode(hi) + rest)) ==
            Ok(Number(Float(F64(CombineNumber(lo, hi, big)))), rest)
  {
    LebU32RoundTrip(lo, Encode(hi) + rest);
    LebU32RoundTrip(hi, rest);
  }

  lemma TabkFloatRoundTrip(bits: uint64, big: bool, rest: Bytes)
    ensures LjTabk(big, TabkBytes(Number(Float(F64(bits))), big) + rest) == Ok(Number(Float(F64(bits))), rest)
  {
    var (lo, hi) := SplitNumber(bits, big);
    var tail := Encode(lo) + (Encode(hi) + rest);
    assert TabkBytes(Number(Float(F64(bits))), big) + rest == Encode(4) + tail;
    TabkUnfold(big, 4, tail);
    TabkFloatArm(lo, hi, big, rest);
    CombineSplit(lo, hi, bits, big);
  }

  lemma TabkStringArm(bs: Bytes, big: bool, rest: Bytes)
    requires |bs| + 5 < TWO_64 && (|bs| + 5) % 256 >= 5
    ensures TabkArm(big, |bs| + 5, bs + rest) == Ok(Str(bs), rest)
  {
    assert (bs + rest)[..|bs|] == bs && (bs + rest)[|bs|..] == rest;
  }

  lemma TabkStringRoundTrip(bs: Bytes, big: bool, rest: Bytes)
    requires |bs| + 5 < TWO_64 && (|bs| + 5) % 256 >= 5
    ensures LjTabk(big, TabkBytes(Str(bs), big) + rest) == Ok(Str(bs), rest)
  {
    assert TabkBytes(Str(bs), big) + rest == Encode(|bs| + 5) + (bs + rest);
    TabkUnfold(big, |bs| + 5, bs + rest);
    TabkStringArm(bs, big, rest);
  }

  /**
   * Matching on `ty as u8` misreads strings whose tag has a low byte below 5:
   * the tag of a 766-byte string is 771, whose low byte 3 selects the
   * integer arm, which reads the string's first bytes as a ULEB128.
   */
  lemma TabkLongStringMisread(big: bool, bs: Bytes, rest: Bytes)
    requires |bs| == 766 && bs[0] == 7
    ensures LjTabk(big, TabkBytes(Str(bs), big) + rest) == Ok(Number(Integer(7)), bs[1..] + rest)
  {
    var tail := bs + rest;
    StringBytes771(bs, big, rest);
    TabkUnfold(big, 771, tail);
    SplitSeven(bs, rest);
    TabkArmInteger771(big, bs[1..] + rest);
  }

  lemma StringBytes771(bs: Bytes, big: bool, rest: Bytes)
    requires |bs| == 766
    ensures TabkBytes(Str(bs), big) + rest == Encode(771) + (bs + rest)
  {
  }

  lemma SplitSeven(bs: Bytes, rest: Bytes)
    requires |bs| >= 1 && bs[0] == 7
    ensures bs + rest == Encode(7) + (bs[1..] + rest)
  {
    assert bs == [7] + bs[1..];
  }

  lemma TabkArmInteger771(big: bool, rest: Bytes)
    ensures TabkArm(big, 771, Encode(7) + rest) == Ok(Number(Integer(7)), rest)
  {
    LebU32RoundTrip(7, rest);
  }

  /**
   * The reading of `lj_tabk` the dump format intends: the whole tag, not its
   * low byte, selects the arm, so every tag of 5 or more is a string.
   */
  function TabkArmIntended(big: bool, ty: uint64, s: Bytes): (r: Result<Constant>)
    ensures NoLonger(r, s)
    ensures r.Err? ==> r.failure == Reject
    ensures r.Ok? ==> !r.value.Proto? && !r.value.Table?
    ensures r.Ok? ==> (r.value.Str? <==> ty >= 5)
    ensures ty >= 5 ==> (r.Ok? <==> |s| >= ty - 5)
  {
    if ty < 5 then TabkArm(big, ty, s)
    else
      var (bs, s1) :- Take(ty - 5, s);
      Ok(Str(bs), s1)
  }

  /** `lj_tabk` under the intended reading of its tag. */
  function LjTabkIntended(big: bool, s: Bytes): (r: Result<Constant>)
    ensures Shorter(r, s)
    ensures r.Err? ==> r.failure == Reject
    ensures r.Ok? ==> LebU64(s).Ok? && (r.value.Str? <==> LebU64(s).value >= 5)
  {
    var (ty, s1) :- LebU64(s);
    TabkArmIntended(big, ty, s1)
  }

  /** The code and the intended reading agree on every tag below 256. */
  lemma TabkAgreesBelow256(big: bool, s: Bytes)
    requires LebU64(s).Ok? && LebU64(s).value < 256
    ensures LjTabkIntended(big, s) == LjTabk(big, s)
  {
    var ty := LebU64(s).value;
    assert ty % 256 == ty;
  }

  /** Under the intended reading every string a writer can tag reads back, whatever its length. */
  lemma TabkIntendedStringRoundTrip(bs: Bytes, big: bool, rest: Bytes)
    requires |bs| + 5 < TWO_64
    ensures LjTabkIntended(big, TabkBytes(Str(bs), big) + rest) == Ok(Str(bs), rest)
  {
    assert TabkBytes(Str(bs), big) + rest == Encode(|bs| + 5) + (bs + rest);
    LebU64RoundTrip(|bs| + 5, bs + rest);
    assert (bs + rest)[..|bs|] == bs && (bs + rest)[|bs|..] == rest;
  }

  /** Under the intended reading every constant a writer can tag reads back, strings of any length included. */
  lemma TabkIntendedRoundTrip(c: Constant, big: bool, rest: Bytes)
    requires TabkWritable(c) || (c.Str? && |c.bytes| + 5 < TWO_64)
    ensures LjTabkIntended(big, TabkBytes(c, big) + rest) == Ok(c, rest)
  {
    if c.Str? {
      TabkIntendedStringRoundTrip(c.bytes, big, rest);
    } else {
      TabkRoundTrip(c, big, rest);
      TabkSmallTag(c, big, rest);
      TabkAgreesBelow256(big, TabkBytes(c, big) + rest);
    }
  }

  /** The tag of a nil, boolean or number constant is below 5. */
  lemma TabkSmallTag(c: Constant, big: bool, rest: Bytes)
    requires TabkWritable(c) && !c.Str?
    ensures LebU64(TabkBytes(c, big) + rest).Ok? && LebU64(TabkBytes(c, big) + rest).value < 5
  {
    match c
    case Null => LebU64RoundTrip(0, rest);
    case Bool(b) => LebU64RoundTrip(if b then 2 else 1, rest);
    case Number(n) =>
      if n.Integer? {
        assert TabkBytes(c, big) + rest == Encode(3) + (Encode(n.i) + rest);
        LebU64RoundTrip(3, Encode(n.i) + rest);
      } else {
        var (lo, hi) := SplitNumber(n.f.bits64, big);
        assert TabkBytes(c, big) + rest == Encode(4) + (Encode(lo) + Encode(hi) + rest);
        LebU64RoundTrip(4, Encode(lo) + Encode(hi) + rest);
      }
  }

  /**
   * As written, no string whose tag has a low byte below 5 reads back as
   * itself: it is read as nil, a boolean or a number, or refused.
   */
  lemma TabkShortTagMisread(bs: Bytes, big: bool, rest: Bytes)
    requires |bs| + 5 < TWO_64 && (|bs| + 5) % 256 < 5
    ensures LjTabk(big, TabkBytes(Str(bs), big) + rest) != Ok(Str(bs), rest)
  {
    assert TabkBytes(Str(bs), big) + rest == Encode(|bs| + 5) + (bs + rest);
    TabkUnfold(big, |bs| + 5, bs + rest);
  }

  /** `tuple((lj_tabk, lj_tabk))`: one key-value pair of the hash part. */
  function LjTabkPair(big: bool, s: Bytes): (r: Result<(Constant, Constant)>)
    ensures Shorter(r, s)
    ensures r.Err? ==> r.failure == Reject
  {
    var (k, s1) :- LjTabk(big, s);
    var (v, s2) :- LjTabk(big, s1);
    Ok((k, v), s2)
  }

  /**
   * The table `lj_tab` builds from its array and hash items: the first
   * array item leaves the array and, unless it is nil, joins the hash part
   * under the key 0.
   */
  function TableOf(arr: seq<Constant>, hash: seq<(Constant, Constant)>): (t: ConstTable)
    ensures |t.arrayPart| == (if arr == [] then 0 else |arr| - 1)
    ensures arr != [] ==> t.arrayPart == arr[1..]
    ensures |t.hashPart| >= |hash| && t.hashPart[..|hash|] == hash
    ensures |t.hashPart| == |hash| + (if arr != [] && !arr[0].Null? then 1 else 0)
    ensures |t.hashPart| > |hash| ==> t.hashPart[|hash|] == (Number(Integer(0)), arr[0])
  {
    if arr == [] then ConstTable([], hash)
    else if arr[0].Null? then ConstTable(arr[1..], hash)
    else ConstTable(arr[1..], hash + [(Number(Integer(0)), arr[0])])
  }

  /** `lj_tab`: the array and hash item counts, then the items. */
  function LjTab(big: bool, s: Bytes): (r: Result<Constant>)
    ensures Shorter(r, s)
    ensures r.Err? ==> r.failure == Reject
    ensures r.Ok? ==> r.value.Table? && LebU32(s).Ok? && LebU32(LebU32(s).rest).Ok?
    ensures r.Ok? ==>
      var narray := LebU32(s).value;
      var nhash := LebU32(LebU32(s).rest).value;
      |r.value.table.arrayPart| == (if narray == 0 then 0 else narray - 1) &&
      nhash <= |r.value.table.hashPart| <= nhash + 1
  {
    var (narray, s1) :- LebU32(s);
    var (nhash, s2) :- LebU32(s1);
    ManyRejects(t => LjTabk(big, t), narray, s2);
    var (arr, s3) :- Many(t => LjTabk(big, t), narray, s2);
    ManyRejects(t => LjTabkPair(big, t), nhash, s3);
    var (hash, s4) :- Many(t => LjTabkPair(big, t), nhash, s3);
    Ok(Table(TableOf(arr, hash)), s4)
  }

  /** `TabkBytes` extended to every constant: only the writable ones are ever written. */
  function TabkItemBytes(big: bool, c: Constant): Bytes
  {
    if TabkWritable(c) then TabkBytes(c, big) else []
  }

  function TabkPairBytes(big: bool, kv: (Constant, Constant)): Bytes
  {
    TabkItemBytes(big, kv.0) + TabkItemBytes(big, kv.1)
  }

  /** The bytes a LuaJIT writer emits for a table: the two counts, the array items, then the hash pairs. */
  function TabBytes(big: bool, arr: seq<Constant>, hash: seq<(Constant, Constant)>): Bytes
  {
    Encode(|arr|) + Encode(|hash|) + Flatten(arr, c => TabkItemBytes(big, c)) + Flatten(hash, kv => TabkPairBytes(big, kv))
  }

  predicate PairWritable(kv: (Constant, Constant))
  {
    TabkWritable(kv.0) && TabkWritable(kv.1)
  }

  lemma TabkPairRoundTrip(big: bool, kv: (Constant, Constant), rest: Bytes)
    requires PairWritable(kv)
    ensures LjTabkPair(big, TabkPairBytes(big, kv) + rest) == Ok(kv, rest)
  {
    var tail := TabkItemBytes(big, kv.1) + rest;
    assert TabkPairBytes(big, kv) + rest == TabkBytes(kv.0, big) + tail;
    TabkRoundTrip(kv.0, big, tail);
    TabkRoundTrip(kv.1, big, rest);
  }

  /**
   * A written table reads back as the table `lj_tab` builds from its items:
   * the first array item moves to the hash part under the key 0.
   */
  lemma {:induction false} LjTabRoundTrip(big: bool, arr: seq<Constant>, hash: seq<(Constant, Constant)>, rest: Bytes)
    requires |arr| < TWO_32 && |hash| < TWO_32
    requires forall i :: 0 <= i < |arr| ==> TabkWritable(arr[i])
    requires forall i :: 0 <= i < |hash| ==> PairWritable(hash[i])
    ensures LjTab(big, TabBytes(big, arr, hash) + rest) == Ok(Table(TableOf(arr, hash)), rest)
  {
    var itemP := t => LjTabk(big, t);
    var itemE := c => TabkItemBytes(big, c);
    var pairP := t => LjTabkPair(big, t);
    var pairE := kv => TabkPairBytes(big, kv);
    var s3 := Flatten(hash, pairE) + rest;
    var s2 := Flatten(arr, itemE) + s3;
    var s1 := Encode(|hash|) + s2;
    Concat4(Encode(|arr|), Encode(|hash|), Flatten(arr, itemE), Flatten(hash, pairE), rest);
    LebU32RoundTrip(|arr|, s1);
    LebU32RoundTrip(|hash|, s2);
    forall i, t | 0 <= i < |arr|
      ensures itemP(itemE(arr[i]) + t) == Ok(arr[i], t)
    {
      TabkRoundTrip(arr[i], big, t);
    }
    ManyRoundTrip(itemP, itemE, arr, s3);
    forall i, t | 0 <= i < |hash|
      ensures pairP(pairE(hash[i]) + t) == Ok(hash[i], t)
    {
      TabkPairRoundTrip(big, hash[i], t);
    }
    ManyRoundTrip(pairP, pairE, hash, rest);
  }

  lemma Concat4(a: Bytes, b: Bytes, c: Bytes, d: Bytes, rest: Bytes)
    ensures a + b + c + d + rest == a + (b + (c + (d + rest)))
  {
  }

  // ----- complex constants and the prototype stack (src/luajit.rs:83-120) -----

  function Reverse<T>(xs: seq<T>): (r: seq<T>)
    ensures |r| == |xs|
  {
    if xs == [] then [] else Reverse(xs[1..]) + [xs[0]]
  }

  /** The element at index `i` of the reversal is the element `i` places from the end. */
  lemma {:induction false} ReverseIndex<T>(xs: seq<T>, i: nat)
    requires i < |xs|
    ensures Reverse(xs)[i] == xs[|xs| - 1 - i]
  {
    if i < |xs| - 1 {
      ReverseIndex(xs[1..], i);
    }
  }

  lemma {:induction false} ReverseAppend<T>(xs: seq<T>, ys: seq<T>)
    ensures Reverse(xs + ys) == Reverse(ys) + Reverse(xs)
  {
    if xs == [] {
      assert xs + ys == ys;
    } else {
      assert (xs + ys)[1..] == xs[1..] + ys;
      ReverseAppend(xs[1..], ys);
    }
  }

  lemma {:induction false} ReverseReverse<T>(xs: seq<T>)
    ensures Reverse(Reverse(xs)) == xs
  {
    if xs != [] {
      ReverseReverse(xs[1..]);
      ReverseAppend(Reverse(xs[1..]), [xs[0]]);
      assert Reverse([xs[0]]) == [xs[0]];
      assert [xs[0]] + xs[1..] == xs;
    }
  }

  /**
   * How the shared stack and a prototype's children change together: entries
   * leave the top of the stack and are appended to the children, the top
   * first.
   */
  predicate Moved(stack: seq<Chunk>, children: seq<Chunk>, stack': seq<Chunk>, children': seq<Chunk>)
  {
    |stack'| <= |stack| && stack' == stack[..|stack'|] && children' == children + Reverse(stack[|stack'|..])
  }

  lemma MovedTrans(a: seq<Chunk>, ca: seq<Chunk>, b: seq<Chunk>, cb: seq<Chunk>, c: seq<Chunk>, cc: seq<Chunk>)
    requires Moved(a, ca, b, cb) && Moved(b, cb, c, cc)
    ensures Moved(a, ca, c, cc)
  {
    assert b[|c|..] == a[|c|..|b|];
    assert a[|c|..] == a[|c|..|b|] + a[|b|..];
    ReverseAppend(a[|c|..|b|], a[|b|..]);
  }

  /** The number of `Proto` constants in `cs`. */
  function CountProtos(cs: seq<Constant>): nat
  {
    if cs == [] then 0 else (if cs[0].Proto? then 1 else 0) + CountProtos(cs[1..])
  }

  lemma {:induction false} CountProtosAppend(xs: seq<Constant>, ys: seq<Constant>)
    ensures CountProtos(xs + ys) == CountProtos(xs) + CountProtos(ys)
  {
    if xs == [] {
      assert xs + ys == ys;
    } else {
      assert (xs + ys)[1..] == xs[1..] + ys;
      CountProtosAppend(xs[1..], ys);
    }
  }

  lemma {:induction false} CountProtosReverse(xs: seq<Constant>)
    ensures CountProtos(Reverse(xs)) == CountProtos(xs)
  {
    if xs != [] {
      CountProtosReverse(xs[1..]);
      CountProtosAppend(Reverse(xs[1..]), [xs[0]]);
      assert [xs[0]][1..] == [];
    }
  }

  /** `Proto` constants, in the order read, name consecutive children from `base` on. */
  predicate Numbered(cs: seq<Constant>, base: nat)
  {
    forall i :: 0 <= i < |cs| && cs[i].Proto? ==> cs[i].index == base + CountProtos(cs[..i])
  }

  /**
   * `lj_complex_constant`: a ULEB128 tag whose low byte (`ty as u8`)
   * selects a child prototype, a table, a signed or unsigned 64-bit integer,
   * or else a string of `ty - 5` bytes; a tag of exactly 4 (a complex number)
   * is `unreachable!`. A child is the top of the shared stack, moved to the
   * end of this prototype's children and named by its index there.
   */
  function LjComplexConstant(big: bool, stack: seq<Chunk>, children: seq<Chunk>, s: Bytes)
    : (r: Result<(Constant, seq<Chunk>, seq<Chunk>)>)
    ensures Shorter(r, s)
    ensures r.Ok? ==> Moved(stack, children, r.value.1, r.value.2)
    ensures r.Ok? ==> LebU64(s).Ok? && (r.value.0.Proto? <==> LebU64(s).value % 256 == 0)
    ensures r.Ok? && r.value.0.Proto? ==>
      r.value.0.index == |children| && |stack| >= 1 && |r.value.1| == |stack| - 1
    ensures r.Ok? && !r.value.0.Proto? ==> r.value.1 == stack && r.value.2 == children
    ensures r == Err(Panic) <==> LebU64(s).Ok? && LebU64(s).value == 4
    ensures LebU64(s).Ok? && LebU64(s).value % 256 == 0 && stack == [] ==> r == Err(Reject)
  {
    var (ty, s1) :- LebU64(s);
    KgcArm(big, ty, stack, children, s1)
  }

  /** The arm of `lj_complex_constant` the tag `ty` selects, applied to the input after the tag. */
  function KgcArm(big: bool, ty: uint64, stack: seq<Chunk>, children: seq<Chunk>, s: Bytes)
    : (r: Result<(Constant, seq<Chunk>, seq<Chunk>)>)
    ensures NoLonger(r, s)
    ensures r.Ok? ==> Moved(stack, children, r.value.1, r.value.2)
    ensures r.Ok? ==> (r.value.0.Proto? <==> ty % 256 == 0)
    ensures r.Ok? && r.value.0.Proto? ==>
      r.value.0.index == |children| && |stack| >= 1 && |r.value.1| == |stack| - 1
    ensures r.Ok? && !r.value.0.Proto? ==> r.value.1 == stack && r.value.2 == children
    ensures r == Err(Panic) <==> ty == 4
    ensures ty % 256 == 0 && stack == [] ==> r == Err(Reject)
  {
    if ty % 256 == 0 then
      if stack == [] then Err(Reject)
      else
        var top := stack[|stack| - 1];
        assert stack[|stack| - 1..] == [top];
        Ok((Proto(|children|), stack[..|stack| - 1], children + [top]), s)
    else
      KgcValuePanics(big, ty, s);
      var (c, s1) :- KgcValue(big, ty, s);
      Ok((c, stack, children), s1)
  }

  /** The arms of `lj_complex_constant` that read a value rather than a child. */
  function KgcValue(big: bool, ty: uint64, s: Bytes): (r: Result<Constant>)
    requires ty % 256 != 0
    ensures NoLonger(r, s)
    ensures r.Ok? ==> !r.value.Proto?
  {
    var sel := ty % 256;
    if sel == 2 || sel == 3 then KgcInteger(s)
    else if sel == 1 then LjTab(big, s)
    else if ty >= 5 then KgcString(ty - 5, s)
    else Err(Panic)
  }

  function KgcString(n: nat, s: Bytes): (r: Result<Constant>)
    ensures NoLonger(r, s)
    ensures r.Err? ==> r.failure == Reject
    ensures r.Ok? ==> r.value.Str? && |r.value.bytes| == n
  {
    var (bs, s1) :- Take(n, s);
    Ok(Str(bs), s1)
  }

  /** Only the tag 4 itself, a complex number, reaches `unreachable!`. */
  lemma KgcValuePanics(big: bool, ty: uint64, s: Bytes)
    requires ty % 256 != 0
    ensures KgcValue(big, ty, s) == Err(Panic) <==> ty == 4
  {
    if ty < 5 {
      assert ty % 256 == ty;
    }
  }

  /**
   * `lo | hi << 32` from two ULEB128 halves, as an `i64` (BCDUMP_KGC_I64)
   * or as a `u64` cast to `i64` (BCDUMP_KGC_U64): the same two's-complement bits.
   */
  function KgcInteger(s: Bytes): (r: Result<Constant>)
    ensures NoLonger(r, s)
    ensures r.Err? ==> r.failure == Reject
    ensures r.Ok? ==> r.value.Number? && r.value.n.Integer?
  {
    var (lo, s1) :- LebU32(s);
    var (hi, s2) :- LebU32(s1);
    Pow256Eight();
    ToSignedRange(lo + hi * TWO_32, 8);
    Ok(Number(Integer(ToSigned(lo + hi * TWO_32, 8))), s2)
  }

  /**
   * The reading of `lj_complex_constant` the dump format intends: the whole
   * tag, not its low byte, selects the arm, so every tag of 5 or more is a
   * string; a complex number (tag 4) stays unsupported.
   */
  function KgcArmIntended(big: bool, ty: uint64, stack: seq<Chunk>, children: seq<Chunk>, s: Bytes)
    : (r: Result<(Constant, seq<Chunk>, seq<Chunk>)>)
    ensures NoLonger(r, s)
    ensures r.Ok? ==> Moved(stack, children, r.value.1, r.value.2)
    ensures r.Ok? ==> (r.value.0.Proto? <==> ty == 0)
    ensures r.Ok? ==> (r.value.0.Str? <==> ty >= 5)
    ensures r.Ok? && !r.value.0.Proto? ==> r.value.1 == stack && r.value.2 == children
    ensures r == Err(Panic) <==> ty == 4
  {
    if ty < 5 then
      assert ty % 256 == ty;
      KgcArm(big, ty, stack, children, s)
    else
      var (c, s1) :- KgcString(ty - 5, s);
      Ok((c, stack, children), s1)
  }

  /** `lj_complex_constant` under the intended reading of its tag. */
  function LjComplexConstantIntended(big: bool, stack: seq<Chunk>, children: seq<Chunk>, s: Bytes)
    : (r: Result<(Constant, seq<Chunk>, seq<Chunk>)>)
    ensures Shorter(r, s)
    ensures r.Ok? ==> Moved(stack, children, r.value.1, r.value.2)
    ensures r.Ok? ==> LebU64(s).Ok? && (r.value.0.Str? <==> LebU64(s).value >= 5)
  {
    var (ty, s1) :- LebU64(s);
    KgcArmIntended(big, ty, stack, children, s1)
  }

  /** The code and the intended reading agree on every tag below 256. */
  lemma KgcAgreesBelow256(big: bool, stack: seq<Chunk>, children: seq<Chunk>, s: Bytes)
    requires LebU64(s).Ok? && LebU64(s).value < 256
    ensures LjComplexConstantIntended(big, stack, children, s) == LjComplexConstant(big, stack, children, s)
  {
    var ty := LebU64(s).value;
    assert ty % 256 == ty;
  }

  /** The bytes a LuaJIT writer emits for a string constant of a prototype. */
  function KgcStringBytes(bs: Bytes): Bytes
    requires |bs| + 5 < TWO_64
  {
    Encode(|bs| + 5) + bs
  }

  /** Under the intended reading every string constant reads back, whatever its length. */
  lemma KgcIntendedStringRoundTrip(bs: Bytes, big: bool, stack: seq<Chunk>, children: seq<Chunk>, rest: Bytes)
    requires |bs| + 5 < TWO_64
    ensures LjComplexConstantIntended(big, stack, children, KgcStringBytes(bs) + rest) == Ok((Str(bs), stack, children), rest)
  {
    assert KgcStringBytes(bs) + rest == Encode(|bs| + 5) + (bs + rest);
    LebU64RoundTrip(|bs| + 5, bs + rest);
    assert (bs + rest)[..|bs|] == bs && (bs + rest)[|bs|..] == rest;
  }

  /**
   * As written, a string constant reads back exactly when its tag has a low
   * byte of 4 or more: 4 falls through to the string arm once the tag is 5
   * or more.
   */
  lemma KgcStringRoundTrip(bs: Bytes, big: bool, stack: seq<Chunk>, children: seq<Chunk>, rest: Bytes)
    requires |bs| + 5 < TWO_64
    ensures LjComplexConstant(big, stack, children, KgcStringBytes(bs) + rest) == Ok((Str(bs), stack, children), rest)
            <==> (|bs| + 5) % 256 >= 4
  {
    var ty := |bs| + 5;
    assert KgcStringBytes(bs) + rest == Encode(ty) + (bs + rest);
    LebU64RoundTrip(ty, bs + rest);
    assert (bs + rest)[..|bs|] == bs && (bs + rest)[|bs|..] == rest;
    var sel := ty % 256;
    if sel == 0 {
    } else if sel == 1 {
      assert LjTab(big, bs + rest).Ok? ==> LjTab(big, bs + rest).value.Table?;
    } else if sel == 2 || sel == 3 {
      assert KgcInteger(bs + rest).Ok? ==> KgcInteger(bs + rest).value.Number?;
    }
  }

  /**
   * `count(lj_complex_constant, n)`: `n` constants, threading the stack and
   * the children from one to the next.
   */
  function ComplexConstants(big: bool, n: nat, stack: seq<Chunk>, children: seq<Chunk>, s: Bytes)
    : (r: Result<(seq<Constant>, seq<Chunk>, seq<Chunk>)>)
    ensures NoLonger(r, s)
    ensures r.Ok? ==> |r.value.0| == n && Moved(stack, children, r.value.1, r.value.2)
    ensures r.Ok? ==> Numbered(r.value.0, |children|) && |r.value.2| == |children| + CountProtos(r.value.0)
    decreases n
  {
    if n == 0 then Ok(([], stack, children), s)
    else
      var (first, s1) :- LjComplexConstant(big, stack, children, s);
      var (c, stack1, children1) := first;
      var (more, s2) :- ComplexConstants(big, n - 1, stack1, children1, s1);
      var (cs, stack2, children2) := more;
      MovedTrans(stack, children, stack1, children1, stack2, children2);
      NumberedCons(c, cs, |children|, |children1|);
      Ok(([c] + cs, stack2, children2), s2)
  }

  lemma NumberedCons(c: Constant, cs: seq<Constant>, base: nat, next: nat)
    requires c.Proto? ==> c.index == base
    requires next == base + (if c.Proto? then 1 else 0)
    requires Numbered(cs, next)
    ensures Numbered([c] + cs, base)
    ensures CountProtos([c] + cs) == (if c.Proto? then 1 else 0) + CountProtos(cs)
  {
    var all := [c] + cs;
    assert all[1..] == cs;
    forall i | 0 <= i < |all| && all[i].Proto?
      ensures all[i].index == base + CountProtos(all[..i])
    {
      if i > 0 {
        assert all[..i] == [c] + cs[..i - 1];
        assert all[..i][1..] == cs[..i - 1];
      }
    }
  }

  // ----- prototypes (src/luajit.rs:201-319) -----

  /** One upvalue reference: bit 15 marks a slot of the enclosing frame; the id is the low byte. */
  function LjUpval(big: bool, s: Bytes): (r: Result<UpVal>)
    ensures r.Ok? <==> 2 <= |s|
    ensures r.Ok? ==>
      var v := UIntValue(s[..2], big);
      r.value.onStack == (v >= 0x8000) && r.value.id == v % 256 && r.value.kind == 0 && r.rest == s[2..]
    ensures r.Err? ==> r.failure == Reject
  {
    var (v, s1) :- ReadU16(big, s);
    Ok(UpVal(v >= 0x8000, (v % 0x8000) % 256, 0), s1)
  }

  /** The fixed part of a prototype after its size. */
  datatype ProtoHead = ProtoHead(
    flags: uint8, numParams: uint8, frameSize: uint8, numUpvalues: uint8,
    complexCount: uint32, numericCount: uint32, instructionCount: uint32,
    debugSize: uint64, lineDefined: uint64, numLines: uint64)

  /**
   * Four bytes, three ULEB128 counts and, unless the dump is stripped, the
   * debug-information size, the first line and the number of lines.
   */
  function LjProtoHead(h: Header, s: Bytes): (r: Result<ProtoHead>)
    ensures Shorter(r, s)
    ensures r.Err? ==> r.failure == Reject
    ensures r.Ok? ==>
      |s| >= 7 && r.value.flags == s[0] && r.value.numParams == s[1] &&
      r.value.frameSize == s[2] && r.value.numUpvalues == s[3]
    ensures r.Ok? && h.stripped ==> r.value.debugSize == 0 && r.value.lineDefined == 0 && r.value.numLines == 0
  {
    var (flags, s1) :- ReadU8(s);
    var (numParams, s2) :- ReadU8(s1);
    var (frameSize, s3) :- ReadU8(s2);
    var (numUpvalues, s4) :- ReadU8(s3);
    var (complexCount, s5) :- LebU32(s4);
    var (numericCount, s6) :- LebU32(s5);
    var (instructionCount, s7) :- LebU32(s6);
    if h.stripped then
      Ok(ProtoHead(flags, numParams, frameSize, numUpvalues, complexCount, numericCount, instructionCount, 0, 0, 0), s7)
    else
      var (debugSize, s8) :- LebU64(s7);
      var (lineDefined, s9) :- LebU64(s8);
      var (numLines, s10) :- LebU64(s9);
      Ok(ProtoHead(flags, numParams, frameSize, numUpvalues, complexCount, numericCount, instructionCount,
                   debugSize, lineDefined, numLines), s10)
  }

  /**
   * The lists of a prototype: instructions, upvalues, complex constants
   * (kept reversed), numeric constants, then the skipped debug information.
   * `line_defined + numline` overflowing 64 bits panics.
   */
  function LjProtoBody(h: Header, head: ProtoHead, stack: seq<Chunk>, s: Bytes): (r: Result<(Chunk, seq<Chunk>)>)
    ensures NoLonger(r, s)
    ensures head.lineDefined + head.numLines >= TWO_64 ==> r == Err(Panic)
    ensures r.Ok? ==>
      var c := r.value.0;
      Moved(stack, [], r.value.1, c.prototypes) &&
      Numbered(Reverse(c.constants), 0) && |c.prototypes| == CountProtos(c.constants)
    ensures r.Ok? ==>
      var c := r.value.0;
      c.name == [] && c.isVararg.None? && c.flags == head.flags && c.numParams == head.numParams &&
      c.maxStack == head.frameSize && c.numUpvalues == head.numUpvalues &&
      c.lineDefined == head.lineDefined && c.lastLineDefined == head.lineDefined + head.numLines &&
      |c.instructions| == head.instructionCount && |c.upvalueInfos| == head.numUpvalues &&
      |c.constants| == head.complexCount && |c.numConstants| == head.numericCount &&
      c.sourceLines == [] && c.locals == [] && c.upvalueNames == []
  {
    var big := h.bigEndian;
    var lastLine := head.lineDefined + head.numLines;
    if lastLine >= TWO_64 then Err(Panic)
    else
      var (instructions, s1) :- Many(t => ReadU32(big, t), head.instructionCount, s);
      var (upvalues, s2) :- Many(t => LjUpval(big, t), head.numUpvalues, s1);
      var (kgc, s3) :- ComplexConstants(big, head.complexCount, stack, [], s2);
      var (constants, stack', children) := kgc;
      var (numbers, s4) :- Many(t => LjNumConstant(big, t), head.numericCount, s3);
      var (_, s5) :- if head.debugSize > 0 then Take(head.debugSize, s4) else Ok([], s4);
      ReverseReverse(constants);
      CountProtosReverse(constants);
      Ok((Chunk([], head.lineDefined, lastLine, head.numUpvalues, head.numParams, head.frameSize, head.flags, None,
                instructions, Reverse(constants), numbers, children, [], [], upvalues, []), stack'), s5)
  }

  /**
   * `lj_proto`: a ULEB128 size, where 0 ends the stream (the size is
   * consumed but the caller keeps its own position), then the head and the
   * body. The prototype's children are taken from the top of the stack.
   */
  function LjProto(h: Header, stack: seq<Chunk>, s: Bytes): (r: Result<(Option<Chunk>, seq<Chunk>)>)
    ensures Shorter(r, s)
    ensures LebU32(s).Ok? && LebU32(s).value == 0 ==> r == Ok((None, stack), LebU32(s).rest)
    ensures r.Ok? && r.value.0.None? ==> LebU32(s).Ok? && LebU32(s).value == 0
    ensures r.Ok? && r.value.0.Some? ==>
      var c := r.value.0.value;
      Moved(stack, [], r.value.1, c.prototypes) &&
      Numbered(Reverse(c.constants), 0) && |c.prototypes| == CountProtos(c.constants)
  {
    var (size, s1) :- LebU32(s);
    if size == 0 then Ok((None, stack), s1)
    else
      var (head, s2) :- LjProtoHead(h, s1);
      var (body, s3) :- LjProtoBody(h, head, stack, s2);
      Ok((Some(body.0), body.1), s3)
  }

  /**
   * A prototype tree as `lj_chunk` rebuilds it: each prototype's `Proto`
   * constants, in the order of the dump, name its children one after the
   * other, and so do those of every child.
   */
  predicate LjTree(c: Chunk)
    decreases c
  {
    Numbered(Reverse(c.constants), 0) && |c.prototypes| == CountProtos(c.constants) &&
    forall i :: 0 <= i < |c.prototypes| ==> LjTree(c.prototypes[i])
  }

  /** Every `Proto` constant of such a tree names one of its children. */
  lemma ProtoIndexInRange(c: Chunk, i: nat)
    requires LjTree(c) && i < |c.constants| && c.constants[i].Proto?
    ensures c.constants[i].index < |c.prototypes|
  {
    var rev := Reverse(c.constants);
    var j := |c.constants| - 1 - i;
    ReverseIndex(c.constants, j);
    assert rev[j] == c.constants[i];
    assert rev == rev[..j] + [rev[j]] + rev[j + 1..];
    CountProtosAppend(rev[..j] + [rev[j]], rev[j + 1..]);
    CountProtosAppend(rev[..j], [rev[j]]);
    assert [rev[j]][1..] == [];
    CountProtosReverse(c.constants);
  }

  /** The loop of `lj_chunk`: prototypes are pushed on the stack until a size of 0. */
  function LjProtoLoop(h: Header, stack: seq<Chunk>, s: Bytes): (r: Result<seq<Chunk>>)
    ensures NoLonger(r, s)
    ensures r.Ok? ==> LebU32(r.rest).Ok? && LebU32(r.rest).value == 0
    decreases |s|
  {
    var (step, s1) :- LjProto(h, stack, s);
    match step.0
    case None => Ok(stack, s)
    case Some(c) => LjProtoLoop(h, step.1 + [c], s1)
  }

  lemma ReverseMembers(xs: seq<Chunk>, x: Chunk)
    requires x in Reverse(xs)
    ensures x in xs
  {
    var i :| 0 <= i < |xs| && Reverse(xs)[i] == x;
    ReverseIndex(xs, i);
  }

  /** The loop only ever pushes trees, given a stack of trees. */
  lemma {:induction false} LjProtoLoopTrees(h: Header, stack: seq<Chunk>, s: Bytes)
    requires forall i :: 0 <= i < |stack| ==> LjTree(stack[i])
    requires LjProtoLoop(h, stack, s).Ok?
    ensures forall i :: 0 <= i < |LjProtoLoop(h, stack, s).value| ==> LjTree(LjProtoLoop(h, stack, s).value[i])
    decreases |s|
  {
    var r := LjProto(h, stack, s);
    var step := r.value;
    var s1 := r.rest;
    if step.0.Some? {
      var c := step.0.value;
      var stack' := step.1;
      forall i | 0 <= i < |c.prototypes|
        ensures LjTree(c.prototypes[i])
      {
        assert c.prototypes[i] in Reverse(stack[|stack'|..]);
        ReverseMembers(stack[|stack'|..], c.prototypes[i]);
      }
      var next := stack' + [c];
      forall i | 0 <= i < |next|
        ensures LjTree(next[i])
      {
        if i < |stack'| {
          assert next[i] == stack[i];
        }
      }
      LjProtoLoopTrees(h, next, s1);
    }
  }

  /** The chunk name: a ULEB128 length and the bytes, absent from a stripped dump. */
  function LjChunkName(h: Header, s: Bytes): (r: Result<Bytes>)
    ensures NoLonger(r, s)
    ensures r.Err? ==> r.failure == Reject
    ensures h.stripped ==> r == Ok([], s)
  {
    if h.stripped then Ok([], s)
    else
      var (n, s1) :- LebU32(s);
      Take(n, s1)
  }

  /**
   * `lj_chunk` as a function of the input: the name, the prototype stream,
   * and the one prototype left on the stack, which is the named root.
   */
  function LjChunkSpec(h: Header, s: Bytes): (r: Result<Chunk>)
  {
    var (name, s1) :- LjChunkName(h, s);
    var (protos, s2) :- LjProtoLoop(h, [], s1);
    if |protos| == 1 then Ok(protos[0].(name := name), s2) else Err(Reject)
  }

  /**
   * A decoded LuaJIT chunk is the named root of a prototype tree, and the
   * size 0 that ends the stream is left unconsumed.
   */
  lemma LjChunkShape(h: Header, s: Bytes)
    requires LjChunkSpec(h, s).Ok?
    ensures LjTree(LjChunkSpec(h, s).value)
    ensures LjChunkSpec(h, s).value.name == LjChunkName(h, s).value
    ensures LebU32(LjChunkSpec(h, s).rest).Ok? && LebU32(LjChunkSpec(h, s).rest).value == 0
  {
    var s1 := LjChunkName(h, s).rest;
    LjProtoLoopTrees(h, [], s1);
  }

  /** `lj_chunk`: the `while let` loop over `lj_proto`, against `LjChunkSpec`. */
  method LjChunk(h: Header, input0: Bytes) returns (r: Result<Chunk>)
    ensures r == LjChunkSpec(h, input0)
    ensures r.Ok? ==> LjTree(r.value)
  {
    var nameResult := LjChunkName(h, input0);
    if nameResult.Err? {
      return Err(nameResult.failure);
    }
    var name := nameResult.value;
    var input := nameResult.rest;
    var protos: seq<Chunk> := [];
    while true
      invariant LjProtoLoop(h, protos, input) == LjProtoLoop(h, [], nameResult.rest)
      decreases |input|
    {
      var step := LjProto(h, protos, input);
      if step.Err? {
        return Err(step.failure);
      }
      var (proto, stack') := step.value;
      if proto.None? {
        break;
      }
      protos := stack' + [proto.value];
      input := step.rest;
    }
    if |protos| == 1 {
      r := Ok(protos[0].(name := name), input);
    } else {
      r := Err(Reject);
    }
    if r.Ok? {
      LjChunkShape(h, input0);
    }
  }

  // ----- prototype flags (src/luajit.rs:321-330, src/lib.rs:198-200) -----

  const HAS_CHILD: uint8 := 0x01
  const IS_VARIADIC: uint8 := 0x02
  const HAS_FFI: uint8 := 0x04
  const JIT_DISABLED: uint8 := 0x08
  /** Declared with the same bit as `JIT_DISABLED`. */
  const HAS_ILOOP: uint8 := 0x08

  /** `ProtoFlags`: one boolean per distinct flag bit. */
  datatype ProtoFlags = ProtoFlags(hasChild: bool, isVariadic: bool, hasFfi: bool, jitDisabled: bool)

  function FlagBits(f: ProtoFlags): (b: uint8)
    ensures b < 16
  {
    (if f.hasChild then HAS_CHILD else 0) + (if f.isVariadic then IS_VARIADIC else 0) +
    (if f.hasFfi then HAS_FFI else 0) + (if f.jitDisabled then JIT_DISABLED else 0)
  }

  /** Whether the single-bit flag `flag` is set in `f`. */
  function Contains(f: ProtoFlags, flag: uint8): bool
    requires flag == 1 || flag == 2 || flag == 4 || flag == 8
  {
    FlagBits(f) / flag % 2 == 1
  }

  /** `ProtoFlags::from_bits`: defined exactly when no bit outside the four flags is set. */
  function FromBits(b: uint8): (r: Option<ProtoFlags>)
    ensures r.Some? <==> b < 16
    ensures r.Some? ==> FlagBits(r.value) == b
  {
    if b >= 16 then None
    else Some(ProtoFlags(b % 2 == 1, b / 2 % 2 == 1, b / 4 % 2 == 1, b / 8 % 2 == 1))
  }

  /** Reading back the bits of a flag set gives the set. */
  lemma FromBitsRoundTrip(f: ProtoFlags)
    ensures FromBits(FlagBits(f)) == Some(f)
  {
  }

  /** Each flag of the set is its own bit; `HAS_ILOOP` is no flag of its own, but `JIT_DISABLED`. */
  lemma FlagsAreBits(f: ProtoFlags)
    ensures Contains(f, HAS_CHILD) == f.hasChild && Contains(f, IS_VARIADIC) == f.isVariadic
    ensures Contains(f, HAS_FFI) == f.hasFfi && Contains(f, JIT_DISABLED) == f.jitDisabled
    ensures Contains(f, HAS_ILOOP) == f.jitDisabled
  {
  }

  /**
   * `LuaChunk::flags`: `from_bits(..).unwrap()`, so `None` stands for the
   * panic of a flags byte with a bit above `0x0F`.
   */
  function ChunkFlags(c: Chunk): (r: Option<ProtoFlags>)
    ensures r.Some? <==> c.flags < 16
    ensures r.Some? ==> FlagBits(r.value) == c.flags
  {
    FromBits(c.flags)
  }
}

/**
 * The Lua 5.4 prototype decoder (src/lua54.rs). Sizes and integers use the
 * most-significant-first variable-length form of `load_unsigned`; strings
 * carry their length plus one; the constants are an `alt` of tag readers;
 * an upvalue is three bytes; a prototype is a fixed head followed by eight
 * length-prefixed lists, one of them the nested prototypes.
 */
module Lua54 {
  import opened LuaTypes
  import opened Primitives

  // ----- load_unsigned (src/lua54.rs:4-21) -----

  /** The value of base-128 digits (the low seven bits of each byte), most significant first. */
  function MsbValue(ds: Bytes): nat
  {
    if ds == [] then 0 else MsbValue(ds[..|ds| - 1]) * 128 + ds[|ds| - 1] % 128
  }

  /** The index of the first byte whose high bit is set; `|s|` when there is none. */
  function StopIndex(s: Bytes): (k: nat)
    ensures k <= |s|
  {
    if s == [] then 0 else if s[0] >= 128 then 0 else 1 + StopIndex(s[1..])
  }

  /** Every byte before `StopIndex` has its high bit clear, and the byte at `StopIndex` has it set. */
  lemma {:induction false} StopIndexStops(s: Bytes)
    ensures forall i :: 0 <= i < StopIndex(s) ==> s[i] < 128
    ensures StopIndex(s) < |s| ==> s[StopIndex(s)] >= 128
  {
    if s != [] && s[0] < 128 {
      StopIndexStops(s[1..]);
    }
  }

  /** `StopIndex` is the least index with a set high bit. */
  lemma {:induction false} StopIndexIsFirst(s: Bytes, k: nat)
    requires k <= |s|
    requires forall i :: 0 <= i < k ==> s[i] < 128
    requires k < |s| ==> s[k] >= 128
    ensures StopIndex(s) == k
  {
    if k > 0 {
      assert s[0] < 128;
      StopIndexIsFirst(s[1..], k - 1);
    }
  }

  /** One more byte shifts the value by seven bits and adds the byte's low seven bits. */
  lemma MsbValueSnoc(s: Bytes, j: nat)
    requires j < |s|
    ensures MsbValue(s[..j + 1]) == MsbValue(s[..j]) * 128 + s[j] % 128
  {
    assert s[..j + 1][..j] == s[..j];
  }

  /** A longer prefix never has a smaller value. */
  lemma {:induction false} MsbValueMonotone(s: Bytes, j: nat, k: nat)
    requires j <= k <= |s|
    ensures MsbValue(s[..j]) <= MsbValue(s[..k])
    decreases k - j
  {
    if j < k {
      MsbValueMonotone(s, j, k - 1);
      MsbValueSnoc(s, k - 1);
    }
  }

  /**
   * What `load_unsigned(limit)` reads: the bytes up to and including the
   * first one with its high bit set, as a most-significant-first number.
   * The value read so far must be below `limit >> 7` before every shift; as
   * that value only grows, this holds exactly when it holds before the last
   * shift. Running out of input and the overflow guard both fail
   * recoverably.
   */
  function DecodeUnsigned(limit: uint64, s: Bytes): (r: Result<uint64>)
    ensures Shorter(r, s)
    ensures r.Ok? ==> r.value < 128 * (limit / 128)
    ensures r.Err? ==> r.failure == Reject
  {
    var k := StopIndex(s);
    if k == |s| || MsbValue(s[..k]) >= limit / 128 then Err(Reject)
    else
      MsbValueSnoc(s, k);
      Ok(MsbValue(s[..k + 1]), s[k + 1..])
  }

  /** `load_unsigned(limit)`: the loop that reads one group per byte. */
  method LoadUnsigned(limit0: uint64, input0: Bytes) returns (r: Result<uint64>)
    ensures r == DecodeUnsigned(limit0, input0)
  {
    var x: uint64 := 0;
    var limit := limit0 / 128;
    var input := input0;
    ghost var j := 0;
    StopIndexStops(input0);
    while true
      invariant j <= StopIndex(input0) && input == input0[j..]
      invariant x == MsbValue(input0[..j])
      decreases |input|
    {
      if |input| == 0 {
        return Err(Reject);
      }
      var b := input[0];
      input := input[1..];
      if x >= limit {
        MsbValueMonotone(input0, j, StopIndex(input0));
        return Err(Reject);
      }
      MsbValueSnoc(input0, j);
      // `(x << 7) | (b & 0x7f)`: the shifted value has its low seven bits clear.
      x := x * 128 + b % 128;
      j := j + 1;
      if b >= 128 {
        return Ok(x, input);
      }
    }
  }

  /** The digits of `u`, most significant first, every high bit clear; none for zero. */
  function Groups(u: nat): Bytes
    decreases u
  {
    if u == 0 then [] else Groups(u / 128) + [u % 128]
  }

  /** The shortest encoding of `v`: its high digits, then the last digit with the stop bit. */
  function EncodeUnsigned(v: nat): (bs: Bytes)
    ensures |bs| >= 1
  {
    Groups(v / 128) + [v % 128 + 128]
  }

  lemma {:induction false} GroupsShape(u: nat)
    ensures forall i :: 0 <= i < |Groups(u)| ==> Groups(u)[i] < 128
    ensures MsbValue(Groups(u)) == u
    decreases u
  {
    if u > 0 {
      var p := Groups(u / 128);
      GroupsShape(u / 128);
      var g := p + [u % 128];
      assert Groups(u) == g;
      assert g[..|g| - 1] == p;
      DivMod128(u);
      assert MsbValue(g) == MsbValue(p) * 128 + u % 128;
      forall i | 0 <= i < |g|
        ensures g[i] < 128
      {
        if i < |p| {
          assert g[i] == p[i];
        }
      }
    }
  }

  lemma DivMod128(u: nat)
    ensures u == (u / 128) * 128 + u % 128 && u % 128 < 128 && (u % 128) % 128 == u % 128
  {
  }

  /** Where the encoding of `v` stops, and what its digits before the last one are worth. */
  lemma EncodeShape(v: nat, rest: Bytes)
    ensures StopIndex(EncodeUnsigned(v) + rest) == |Groups(v / 128)|
    ensures MsbValue((EncodeUnsigned(v) + rest)[..|Groups(v / 128)|]) == v / 128
  {
    var g := Groups(v / 128);
    var s := EncodeUnsigned(v) + rest;
    GroupsShape(v / 128);
    assert s[..|g|] == g;
    StopIndexIsFirst(s, |g|);
  }

  /** A value whose high digits are below `limit >> 7` is read back from its encoding. */
  lemma UnsignedRoundTrip(limit: uint64, v: nat, rest: Bytes)
    requires v / 128 < limit / 128
    ensures DecodeUnsigned(limit, EncodeUnsigned(v) + rest) == Ok(v, rest)
  {
    var g := Groups(v / 128);
    var s := EncodeUnsigned(v) + rest;
    EncodeShape(v, rest);
    MsbValueSnoc(s, |g|);
    assert s[|g| + 1..] == rest;
  }

  /** Every other value is refused: the bound of `UnsignedRoundTrip` is exact. */
  lemma UnsignedRefusesLarge(limit: uint64, v: nat, rest: Bytes)
    requires v / 128 >= limit / 128
    ensures DecodeUnsigned(limit, EncodeUnsigned(v) + rest) == Err(Reject)
  {
    EncodeShape(v, rest);
  }

  /** Digits with clear high bits and no leading zero are the digits of their value. */
  lemma {:induction false} GroupsOfValue(ds: Bytes)
    requires forall i :: 0 <= i < |ds| ==> ds[i] < 128
    requires ds == [] || ds[0] != 0
    ensures Groups(MsbValue(ds)) == ds
    decreases |ds|
  {
    if ds != [] {
      var init, last := ds[..|ds| - 1], ds[|ds| - 1];
      var m := MsbValue(ds);
      assert m == MsbValue(init) * 128 + last;
      DigitSplit(MsbValue(init), last);
      LeadingDigitPositive(ds);
      GroupsOfValue(init);
      assert Groups(m) == Groups(m / 128) + [m % 128];
      assert ds == init + [last];
    }
  }

  /** Digits without a leading zero have a positive value. */
  lemma LeadingDigitPositive(ds: Bytes)
    requires ds != [] && ds[0] != 0
    requires forall i :: 0 <= i < |ds| ==> ds[i] < 128
    ensures MsbValue(ds) > 0
  {
    MsbValueMonotone(ds, 1, |ds|);
    assert ds[..1][..0] == [];
    assert ds[..|ds|] == ds;
  }

  /** Conversely, an accepted input whose first digit is not a redundant zero is an encoding. */
  lemma UnsignedInverse(limit: uint64, s: Bytes)
    requires DecodeUnsigned(limit, s).Ok?
    requires StopIndex(s) == 0 || s[0] != 0
    ensures s == EncodeUnsigned(DecodeUnsigned(limit, s).value) + DecodeUnsigned(limit, s).rest
  {
    var k := StopIndex(s);
    var v := DecodeUnsigned(limit, s).value;
    DecodedParts(limit, s);
    StopPrefix(s);
    EncodeOfDigits(s[..k], s[k], v);
    SplitAtStop(s, k);
  }

  /** An accepted input: its stop byte, its value and what follows it. */
  lemma DecodedParts(limit: uint64, s: Bytes)
    requires DecodeUnsigned(limit, s).Ok?
    ensures StopIndex(s) < |s|
    ensures DecodeUnsigned(limit, s).value == MsbValue(s[..StopIndex(s)]) * 128 + s[StopIndex(s)] % 128
    ensures DecodeUnsigned(limit, s).rest == s[StopIndex(s) + 1..]
  {
    MsbValueSnoc(s, StopIndex(s));
  }

  /** The bytes before the stop byte are digits with clear high bits; the stop byte has it set. */
  lemma StopPrefix(s: Bytes)
    requires StopIndex(s) < |s|
    ensures forall i :: 0 <= i < |s[..StopIndex(s)]| ==> s[..StopIndex(s)][i] < 128
    ensures s[StopIndex(s)] >= 128
  {
    StopIndexStops(s);
  }

  lemma SplitAtStop(s: Bytes, k: nat)
    requires k < |s|
    ensures s == s[..k] + [s[k]] + s[k + 1..]
  {
    assert s == s[..k] + s[k..];
    assert s[k..] == [s[k]] + s[k + 1..];
  }

  /** The digits `ds` followed by the stop byte `b` are the encoding of their value. */
  lemma EncodeOfDigits(ds: Bytes, b: uint8, v: nat)
    requires forall i :: 0 <= i < |ds| ==> ds[i] < 128
    requires ds == [] || ds[0] != 0
    requires b >= 128 && v == MsbValue(ds) * 128 + b % 128
    ensures EncodeUnsigned(v) == ds + [b]
  {
    GroupsOfValue(ds);
    EncodeOfParts(MsbValue(ds), b, v);
  }

  /** High digits worth `m` and a stop byte `b` are the encoding of `m * 128 + b % 128`. */
  lemma EncodeOfParts(m: nat, b: uint8, v: nat)
    requires b >= 128 && v == m * 128 + b % 128
    ensures EncodeUnsigned(v) == Groups(m) + [b]
  {
    StopDigit(m, b, v);
  }

  /** The value of high digits `m` and a stop byte `b`, split back into the two. */
  lemma StopDigit(m: nat, b: uint8, v: nat)
    requires b >= 128 && v == m * 128 + b % 128
    ensures v / 128 == m && v % 128 + 128 == b
  {
    DigitSplit(1, b - 128);
    DigitSplit(m, b % 128);
  }

  lemma DigitSplit(m: nat, d: nat)
    requires d < 128
    ensures (m * 128 + d) / 128 == m && (m * 128 + d) % 128 == d
  {
  }

  // ----- load_size and lua_int (src/lua54.rs:23-29) -----

  /** `!0`, the largest 64-bit `usize`. */
  const SizeLimit: uint64 := 0xFFFF_FFFF_FFFF_FFFF

  /** `i32::MAX`. */
  const IntLimit: uint64 := 0x7FFF_FFFF

  /** The values `lua_int` can read: below `128 * (i32::MAX >> 7)`. */
  predicate IntFits(v: nat) {
    v < 0x7FFF_FF80
  }

  /** The sizes `load_size` can read: below `128 * (usize::MAX >> 7)`. */
  predicate SizeFits(v: nat) {
    v < 0xFFFF_FFFF_FFFF_FF80
  }

  /** `load_size`: never a value that overflows 64 bits. */
  function LoadSize(s: Bytes): (r: Result<uint64>)
    ensures Shorter(r, s)
    ensures r.Ok? ==> SizeFits(r.value)
    ensures r.Err? ==> r.failure == Reject
  {
    DecodeUnsigned(SizeLimit, s)
  }

  /** `lua_int`: always below 2^31. */
  function LuaInt(s: Bytes): (r: Result<uint64>)
    ensures Shorter(r, s)
    ensures r.Ok? ==> IntFits(r.value) && r.value < 0x8000_0000
    ensures r.Err? ==> r.failure == Reject
  {
    DecodeUnsigned(IntLimit, s)
  }

  lemma LoadSizeRoundTrip(v: nat, rest: Bytes)
    requires SizeFits(v)
    ensures LoadSize(EncodeUnsigned(v) + rest) == Ok(v, rest)
  {
    UnsignedRoundTrip(SizeLimit, v, rest);
  }

  lemma LuaIntRoundTrip(v: nat, rest: Bytes)
    requires IntFits(v)
    ensures LuaInt(EncodeUnsigned(v) + rest) == Ok(v, rest)
  {
    UnsignedRoundTrip(IntLimit, v, rest);
  }

  // ----- strings, upvalues and locals (src/lua54.rs:31-56) -----

  /** `load_string`: a size of zero is the empty (absent) string, any other size `n` is `n - 1` bytes. */
  function LoadString(s: Bytes): (r: Result<Bytes>)
    ensures Shorter(r, s)
    ensures r.Err? ==> r.failure == Reject
  {
    var (n, s1) :- LoadSize(s);
    if n == 0 then Ok([], s1) else Take(n - 1, s1)
  }

  /** The writer of a present string: its length plus one, then its bytes. */
  function StringBytes(bs: Bytes): Bytes
  {
    EncodeUnsigned(|bs| + 1) + bs
  }

  predicate StringFits(bs: Bytes) {
    SizeFits(|bs| + 1)
  }

  lemma LoadStringRoundTrip(bs: Bytes, rest: Bytes)
    requires StringFits(bs)
    ensures LoadString(StringBytes(bs) + rest) == Ok(bs, rest)
  {
    LoadSizeRoundTrip(|bs| + 1, bs + rest);
    assert StringBytes(bs) + rest == EncodeUnsigned(|bs| + 1) + (bs + rest);
    assert (bs + rest)[..|bs|] == bs;
    assert (bs + rest)[|bs|..] == rest;
  }

  /** The size zero a writer uses for an absent string reads as the empty string. */
  lemma LoadStringAbsent(rest: Bytes)
    ensures LoadString(EncodeUnsigned(0) + rest) == Ok([], rest)
  {
    LoadSizeRoundTrip(0, rest);
  }

  /** `load_upvalue`: the on-stack flag, the index and the kind, one byte each. */
  function LoadUpvalue(s: Bytes): (r: Result<UpVal>)
    ensures r.Ok? <==> |s| >= 3
    ensures r.Ok? ==> r.rest == s[3..]
    ensures r.Err? ==> r.failure == Reject
  {
    var (onStack, s1) :- ReadU8(s);
    var (id, s2) :- ReadU8(s1);
    var (kind, s3) :- ReadU8(s2);
    Ok(UpVal(onStack != 0, id, kind), s3)
  }

  function UpvalueBytes(u: UpVal): Bytes
  {
    [if u.onStack then 1 else 0, u.id, u.kind]
  }

  lemma UpvalueRoundTrip(u: UpVal, rest: Bytes)
    ensures LoadUpvalue(UpvalueBytes(u) + rest) == Ok(u, rest)
  {
    var s := UpvalueBytes(u) + rest;
    assert s[1..][1..][1..] == rest;
  }

  /** `lua_local`: a name and two pcs; the register is the default zero. */
  function LuaLocal(s: Bytes): (r: Result<Local>)
    ensures Shorter(r, s)
    ensures r.Ok? ==> r.value.reg == 0 && IntFits(r.value.startPc) && IntFits(r.value.endPc)
    ensures r.Err? ==> r.failure == Reject
  {
    var (name, s1) :- LoadString(s);
    var (startPc, s2) :- LuaInt(s1);
    var (endPc, s3) :- LuaInt(s2);
    Ok(Local(name, startPc, endPc, 0), s3)
  }

  predicate LocalFits(l: Local) {
    StringFits(l.name) && IntFits(l.startPc) && IntFits(l.endPc) && l.reg == 0
  }

  function LocalBytes(l: Local): Bytes
  {
    StringBytes(l.name) + EncodeUnsigned(l.startPc) + EncodeUnsigned(l.endPc)
  }

  lemma LocalRoundTrip(l: Local, rest: Bytes)
    requires LocalFits(l)
    ensures LuaLocal(LocalBytes(l) + rest) == Ok(l, rest)
  {
    var t2 := EncodeUnsigned(l.endPc) + rest;
    var t1 := EncodeUnsigned(l.startPc) + t2;
    assert LocalBytes(l) + rest == StringBytes(l.name) + t1;
    LoadStringRoundTrip(l.name, t1);
    LuaIntRoundTrip(l.startPc, t2);
    LuaIntRoundTrip(l.endPc, rest);
  }

  /** One absolute line entry: two `lua_int`s, which `as u32` keeps as they are below 2^31. */
  function SourceLine(s: Bytes): (r: Result<(uint32, uint32)>)
    ensures Shorter(r, s)
    ensures r.Err? ==> r.failure == Reject
  {
    var (pc, s1) :- LuaInt(s);
    var (line, s2) :- LuaInt(s1);
    Ok((pc, line), s2)
  }

  function SourceLineBytes(p: (uint32, uint32)): Bytes
  {
    EncodeUnsigned(p.0) + EncodeUnsigned(p.1)
  }

  lemma SourceLineRoundTrip(p: (uint32, uint32), rest: Bytes)
    requires IntFits(p.0) && IntFits(p.1)
    ensures SourceLine(SourceLineBytes(p) + rest) == Ok(p, rest)
  {
    assert SourceLineBytes(p) + rest == EncodeUnsigned(p.0) + (EncodeUnsigned(p.1) + rest);
    LuaIntRoundTrip(p.0, EncodeUnsigned(p.1) + rest);
    LuaIntRoundTrip(p.1, rest);
  }

  // ----- constants (src/lua54.rs:76-86, 147-175) -----

  function TakeLvNil(s: Bytes): Result<Constant>
  {
    var (_, s1) :- Tag([0x00], s);
    Ok(Null, s1)
  }

  function TakeLvFalse(s: Bytes): Result<Constant>
  {
    var (_, s1) :- Tag([0x01], s);
    Ok(Bool(false), s1)
  }

  function TakeLvTrue(s: Bytes): Result<Constant>
  {
    var (_, s1) :- Tag([0x11], s);
    Ok(Bool(true), s1)
  }

  function TakeLvFloat(s: Bytes): Result<Constant>
  {
    var (_, s1) :- Tag([0x13], s);
    var (f, s2) :- ReadF64(false, s1);
    Ok(Number(f), s2)
  }

  function TakeLvStr(s: Bytes): Result<Constant>
  {
    var (_, s1) :- Alt(Tag([0x04], s), Tag([0x14], s));
    var (data, s2) :- LoadString(s1);
    Ok(Str(data), s2)
  }

  /** `le_u64` reinterpreted `as i64`. */
  function TakeLvU64(s: Bytes): Result<Constant>
  {
    var (_, s1) :- Tag([0x03], s);
    var (n, s2) :- ReadInteger(8, false, s1);
    Ok(Number(n), s2)
  }

  /** A constant: the first of the tag readers that accepts. */
  function LoadConstant(s: Bytes): (r: Result<Constant>)
    ensures Shorter(r, s)
    ensures r.Err? ==> r.failure == Reject
  {
    Alt(TakeLvNil(s), Alt(TakeLvFalse(s), Alt(TakeLvTrue(s),
      Alt(TakeLvFloat(s), Alt(TakeLvStr(s), TakeLvU64(s))))))
  }

  /**
   * The tag switch the readers amount to: each tag selects one reader, and
   * a missing or unknown tag is refused.
   */
  function ConstantByTag(s: Bytes): Result<Constant>
  {
    if s == [] then Err(Reject)
    else
      var tag, body := s[0], s[1..];
      if tag == 0x00 then Ok(Null, body)
      else if tag == 0x01 then Ok(Bool(false), body)
      else if tag == 0x11 then Ok(Bool(true), body)
      else if tag == 0x13 then (var (f, rest) :- ReadF64(false, body); Ok(Number(f), rest))
      else if tag == 0x04 || tag == 0x14 then (var (data, rest) :- LoadString(body); Ok(Str(data), rest))
      else if tag == 0x03 then (var (n, rest) :- ReadInteger(8, false, body); Ok(Number(n), rest))
      else Err(Reject)
  }

  /** The tags are disjoint: the `alt` of tag readers is the tag switch. */
  lemma ConstantIsTagSwitch(s: Bytes)
    ensures LoadConstant(s) == ConstantByTag(s)
  {
    if s != [] {
      assert s[..1] == [s[0]];
    }
  }

  /** The constants a writer can emit in this format. */
  predicate ConstantFits(c: Constant) {
    match c
    case Null => true
    case Bool(_) => true
    case Number(n) => n.Integer? || n.f.F64?
    case Str(bs) => StringFits(bs)
    case _ => false
  }

  function ConstantBytes(c: Constant): Bytes
  {
    match c
    case Null => [0x00]
    case Bool(b) => if b then [0x11] else [0x01]
    case Number(Integer(i)) => [0x03] + LeBytes(if i < 0 then i + TWO_64 else i, 8)
    case Number(Float(f)) => [0x13] + LeBytes(f.Bits(), 8)
    case Str(bs) => [0x04] + StringBytes(bs)
    case _ => []
  }

  lemma ConstantRoundTrip(c: Constant, rest: Bytes)
    requires ConstantFits(c)
    ensures LoadConstant(ConstantBytes(c) + rest) == Ok(c, rest)
  {
    ConstantIsTagSwitch(ConstantBytes(c) + rest);
    ByTagRoundTrip(c, rest);
  }

  lemma ByTagRoundTrip(c: Constant, rest: Bytes)
    requires ConstantFits(c)
    ensures ConstantByTag(ConstantBytes(c) + rest) == Ok(c, rest)
  {
    var s := ConstantBytes(c) + rest;
    assert s[1..] == ConstantBytes(c)[1..] + rest;
    match c
    case Null =>
    case Bool(_) =>
    case Number(Integer(i)) =>
      EightBytesRoundTrip(if i < 0 then i + TWO_64 else i, s[1..], rest);
    case Number(Float(f)) =>
      EightBytesRoundTrip(f.Bits(), s[1..], rest);
    case Str(bs) =>
      LoadStringRoundTrip(bs, rest);
  }

  // ----- one prototype (src/lua54.rs:58-145) -----

  /** `length_count(lua_int, p)`: a count, then that many elements. */
  function LengthCount<T>(p: Bytes -> Result<T>, s: Bytes): (r: Result<seq<T>>)
    requires forall t :: NoLonger(p(t), t)
    ensures Shorter(r, s)
  {
    var (n, s1) :- LuaInt(s);
    Many(p, n, s1)
  }

  /** The bytes of a counted list: the count as `lua_int` writes it, then the elements. */
  function CountedBytes<T>(xs: seq<T>, enc: T -> Bytes): Bytes
  {
    EncodeUnsigned(|xs|) + Flatten(xs, enc)
  }

  lemma LengthCountRoundTrip<T>(p: Bytes -> Result<T>, enc: T -> Bytes, xs: seq<T>, rest: Bytes)
    requires forall t :: NoLonger(p(t), t)
    requires IntFits(|xs|)
    requires forall i, t :: 0 <= i < |xs| ==> p(enc(xs[i]) + t) == Ok(xs[i], t)
    ensures LengthCount(p, CountedBytes(xs, enc) + rest) == Ok(xs, rest)
  {
    var body := Flatten(xs, enc) + rest;
    assert CountedBytes(xs, enc) + rest == EncodeUnsigned(|xs|) + body;
    LuaIntRoundTrip(|xs|, body);
    ManyRoundTrip(p, enc, xs, rest);
  }

  /** The instruction list: 32-bit words in the header's byte order. */
  function Instructions(big: bool, s: Bytes): (r: Result<seq<uint32>>)
    ensures Shorter(r, s)
  {
    var (n, s1) :- LuaInt(s);
    ManyWith(ReadU32, big, n, s1)
  }

  function InstructionBytes(big: bool, w: uint32): Bytes
  {
    UIntBytes(w, 4, big)
  }

  function InstructionsBytes(big: bool, ws: seq<uint32>): Bytes
  {
    EncodeUnsigned(|ws|) + FlattenWith(InstructionBytes, big, ws)
  }

  lemma InstructionsRoundTrip(big: bool, ws: seq<uint32>, rest: Bytes)
    requires IntFits(|ws|)
    ensures Instructions(big, InstructionsBytes(big, ws) + rest) == Ok(ws, rest)
  {
    var body := FlattenWith(InstructionBytes, big, ws) + rest;
    assert InstructionsBytes(big, ws) + rest == EncodeUnsigned(|ws|) + body;
    LuaIntRoundTrip(|ws|, body);
    forall i, t | 0 <= i < |ws|
      ensures ReadU32(big, InstructionBytes(big, ws[i]) + t) == Ok(ws[i], t)
    {
      var u := InstructionBytes(big, ws[i]) + t;
      assert u[..4] == UIntBytes(ws[i], 4, big);
      assert u[4..] == t;
      UIntRoundTrip(ws[i], 4, big);
    }
    ManyWithRoundTrip(ReadU32, InstructionBytes, big, ws, rest);
  }

  /** The fixed head of a prototype. */
  datatype ChunkHead = ChunkHead(
    name: Bytes, lineDefined: uint64, lastLineDefined: uint64,
    numParams: uint8, isVararg: uint8, maxStack: uint8)

  function ReadChunkHead(s: Bytes): (r: Result<ChunkHead>)
    ensures Shorter(r, s)
    ensures r.Ok? ==> IntFits(r.value.lineDefined) && IntFits(r.value.lastLineDefined)
  {
    var (name, s1) :- LoadString(s);
    var (lineDefined, s2) :- LuaInt(s1);
    var (lastLineDefined, s3) :- LuaInt(s2);
    var (numParams, s4) :- ReadU8(s3);
    var (isVararg, s5) :- ReadU8(s4);
    var (maxStack, s6) :- ReadU8(s5);
    Ok(ChunkHead(name, lineDefined, lastLineDefined, numParams, isVararg, maxStack), s6)
  }

  /** The lists after the nested prototypes: all of them debug information. */
  datatype Debug = Debug(sourceLines: seq<(uint32, uint32)>, locals: seq<Local>, upvalueNames: seq<Bytes>)

  /** The line information (read and dropped), the absolute line pairs, the locals and the upvalue names. */
  function DebugInfo(s: Bytes): (r: Result<Debug>)
    ensures Shorter(r, s)
  {
    var (_, s1) :- LengthCount(ReadU8, s);
    var (sourceLines, s2) :- LengthCount(SourceLine, s1);
    var (locals, s3) :- LengthCount(LuaLocal, s2);
    var (upvalueNames, s4) :- LengthCount(LoadString, s3);
    Ok(Debug(sourceLines, locals, upvalueNames), s4)
  }

  /**
   * `lua_chunk`: the head, then the instructions, constants, upvalues,
   * nested prototypes and debug information, each list a `lua_int` count
   * and its elements. The upvalue count is the list length truncated to a
   * byte.
   */
  function DecodeChunk(h: Header, s: Bytes): (r: Result<Chunk>)
    ensures Shorter(r, s)
    ensures r.Ok? ==> r.value.numUpvalues == |r.value.upvalueInfos| % 256
    ensures r.Ok? ==> r.value.flags == 0 && r.value.numConstants == []
    decreases |s|, 0, 0
  {
    var (head, s1) :- ReadChunkHead(s);
    var (instructions, s2) :- Instructions(h.bigEndian, s1);
    var (constants, s3) :- LengthCount(LoadConstant, s2);
    var (upvalues, s4) :- LengthCount(LoadUpvalue, s3);
    var (prototypes, s5) :- Prototypes(h, s4);
    var (debug, s6) :- DebugInfo(s5);
    Ok(Chunk(head.name, head.lineDefined, head.lastLineDefined, |upvalues| % 256, head.numParams,
             head.maxStack, 0, VarargInfo(head.isVararg), instructions, constants, [], prototypes,
             debug.sourceLines, debug.locals, upvalues, debug.upvalueNames), s6)
  }

  /** The nested prototypes: a count, then that many prototypes. */
  function Prototypes(h: Header, s: Bytes): (r: Result<seq<Chunk>>)
    ensures Shorter(r, s)
    decreases |s|, 2, 0
  {
    var (n, s1) :- LuaInt(s);
    ProtoList(h, n, s1)
  }

  function ProtoList(h: Header, n: nat, s: Bytes): (r: Result<seq<Chunk>>)
    ensures NoLonger(r, s)
    ensures r.Ok? ==> |r.value| == n
    decreases |s|, 1, n
  {
    if n == 0 then Ok([], s)
    else
      var (c, s1) :- DecodeChunk(h, s);
      var (cs, s2) :- ProtoList(h, n - 1, s1);
      Ok([c] + cs, s2)
  }

  // ----- the writer the prototype decoder inverts -----

  predicate ConstantsFit(cs: seq<Constant>) {
    IntFits(|cs|) && forall i :: 0 <= i < |cs| ==> ConstantFits(cs[i])
  }

  lemma ConstantsRoundTrip(cs: seq<Constant>, rest: Bytes)
    requires ConstantsFit(cs)
    ensures LengthCount(LoadConstant, CountedBytes(cs, ConstantBytes) + rest) == Ok(cs, rest)
  {
    forall i, t | 0 <= i < |cs|
      ensures LoadConstant(ConstantBytes(cs[i]) + t) == Ok(cs[i], t)
    {
      ConstantRoundTrip(cs[i], t);
    }
    LengthCountRoundTrip(LoadConstant, ConstantBytes, cs, rest);
  }

  lemma UpvaluesRoundTrip(us: seq<UpVal>, rest: Bytes)
    requires IntFits(|us|)
    ensures LengthCount(LoadUpvalue, CountedBytes(us, UpvalueBytes) + rest) == Ok(us, rest)
  {
    forall i, t | 0 <= i < |us|
      ensures LoadUpvalue(UpvalueBytes(us[i]) + t) == Ok(us[i], t)
    {
      UpvalueRoundTrip(us[i], t);
    }
    LengthCountRoundTrip(LoadUpvalue, UpvalueBytes, us, rest);
  }

  lemma SourceLinesRoundTrip(ls: seq<(uint32, uint32)>, rest: Bytes)
    requires IntFits(|ls|) && forall i :: 0 <= i < |ls| ==> IntFits(ls[i].0) && IntFits(ls[i].1)
    ensures LengthCount(SourceLine, CountedBytes(ls, SourceLineBytes) + rest) == Ok(ls, rest)
  {
    forall i, t | 0 <= i < |ls|
      ensures SourceLine(SourceLineBytes(ls[i]) + t) == Ok(ls[i], t)
    {
      SourceLineRoundTrip(ls[i], t);
    }
    LengthCountRoundTrip(SourceLine, SourceLineBytes, ls, rest);
  }

  lemma LocalsRoundTrip(ls: seq<Local>, rest: Bytes)
    requires IntFits(|ls|) && forall i :: 0 <= i < |ls| ==> LocalFits(ls[i])
    ensures LengthCount(LuaLocal, CountedBytes(ls, LocalBytes) + rest) == Ok(ls, rest)
  {
    forall i, t | 0 <= i < |ls|
      ensures LuaLocal(LocalBytes(ls[i]) + t) == Ok(ls[i], t)
    {
      LocalRoundTrip(ls[i], t);
    }
    LengthCountRoundTrip(LuaLocal, LocalBytes, ls, rest);
  }

  lemma NamesRoundTrip(ns: seq<Bytes>, rest: Bytes)
    requires IntFits(|ns|) && forall i :: 0 <= i < |ns| ==> StringFits(ns[i])
    ensures LengthCount(LoadString, CountedBytes(ns, StringBytes) + rest) == Ok(ns, rest)
  {
    forall i, t | 0 <= i < |ns|
      ensures LoadString(StringBytes(ns[i]) + t) == Ok(ns[i], t)
    {
      LoadStringRoundTrip(ns[i], t);
    }
    LengthCountRoundTrip(LoadString, StringBytes, ns, rest);
  }

  predicate DebugFits(d: Debug) {
    && IntFits(|d.sourceLines|) && IntFits(|d.locals|) && IntFits(|d.upvalueNames|)
    && (forall i :: 0 <= i < |d.sourceLines| ==> IntFits(d.sourceLines[i].0) && IntFits(d.sourceLines[i].1))
    && (forall i :: 0 <= i < |d.locals| ==> LocalFits(d.locals[i]))
    && (forall i :: 0 <= i < |d.upvalueNames| ==> StringFits(d.upvalueNames[i]))
  }

  /** The debug information a writer emits: no line information, then the three lists. */
  function DebugBytes(d: Debug): Bytes
  {
    EncodeUnsigned(0) +
    (CountedBytes(d.sourceLines, SourceLineBytes) +
    (CountedBytes(d.locals, LocalBytes) +
     CountedBytes(d.upvalueNames, StringBytes)))
  }

  lemma DebugRoundTrip(d: Debug, rest: Bytes)
    requires DebugFits(d)
    ensures DebugInfo(DebugBytes(d) + rest) == Ok(d, rest)
  {
    var t3 := CountedBytes(d.upvalueNames, StringBytes) + rest;
    var t2 := CountedBytes(d.locals, LocalBytes) + t3;
    var t1 := CountedBytes(d.sourceLines, SourceLineBytes) + t2;
    assert DebugBytes(d) + rest == EncodeUnsigned(0) + t1;
    LuaIntRoundTrip(0, t1);
    SourceLinesRoundTrip(d.sourceLines, t2);
    LocalsRoundTrip(d.locals, t3);
    NamesRoundTrip(d.upvalueNames, rest);
  }

  function ChunkDebug(c: Chunk): Debug
  {
    Debug(c.sourceLines, c.locals, c.upvalueNames)
  }

  /** The fields of one prototype a writer can emit: every number within the range `lua_int` reads. */
  predicate PartsFit(c: Chunk) {
    && StringFits(c.name) && IntFits(c.lineDefined) && IntFits(c.lastLineDefined)
    && c.numUpvalues == |c.upvalueInfos| % 256 && c.flags == 0 && c.numConstants == []
    && IntFits(|c.instructions|) && ConstantsFit(c.constants) && IntFits(|c.upvalueInfos|)
    && IntFits(|c.prototypes|) && DebugFits(ChunkDebug(c))
  }

  /** The prototypes a writer can emit: `PartsFit` for the prototype and, recursively, its nested ones. */
  predicate ChunkFits(c: Chunk)
    decreases c
  {
    PartsFit(c) && forall i :: 0 <= i < |c.prototypes| ==> ChunkFits(c.prototypes[i])
  }

  /** The head a writer emits for `c`. */
  function HeadOf(c: Chunk): ChunkHead
  {
    ChunkHead(c.name, c.lineDefined, c.lastLineDefined, c.numParams, VarargByte(c.isVararg), c.maxStack)
  }

  function HeadBytes(c: Chunk): Bytes
  {
    StringBytes(c.name) + (EncodeUnsigned(c.lineDefined) + (EncodeUnsigned(c.lastLineDefined)
    + [c.numParams, VarargByte(c.isVararg), c.maxStack]))
  }

  /** A prototype: its head, its four lists, then its debug information. */
  function ChunkBytes(c: Chunk, big: bool): Bytes
    decreases c, 0
  {
    HeadBytes(c) +
    (InstructionsBytes(big, c.instructions) +
    (CountedBytes(c.constants, ConstantBytes) +
    (CountedBytes(c.upvalueInfos, UpvalueBytes) +
    (EncodeUnsigned(|c.prototypes|) +
    (ProtoListBytes(c.prototypes, big) +
     DebugBytes(ChunkDebug(c)))))))
  }

  function ProtoListBytes(cs: seq<Chunk>, big: bool): Bytes
    decreases cs, 1
  {
    if cs == [] then [] else ChunkBytes(cs[0], big) + ProtoListBytes(cs[1..], big)
  }

  lemma HeadRoundTrip(c: Chunk, rest: Bytes)
    requires StringFits(c.name) && IntFits(c.lineDefined) && IntFits(c.lastLineDefined)
    ensures ReadChunkHead(HeadBytes(c) + rest) == Ok(HeadOf(c), rest)
  {
    var bytes := [c.numParams, VarargByte(c.isVararg), c.maxStack] + rest;
    var t2 := EncodeUnsigned(c.lastLineDefined) + bytes;
    var t1 := EncodeUnsigned(c.lineDefined) + t2;
    assert HeadBytes(c) + rest == StringBytes(c.name) + t1;
    LoadStringRoundTrip(c.name, t1);
    LuaIntRoundTrip(c.lineDefined, t2);
    LuaIntRoundTrip(c.lastLineDefined, bytes);
    assert bytes[1..][1..][1..] == rest;
  }

  /** `lua_chunk` reads back every prototype a writer can emit, nested prototypes included. */
  lemma {:induction false} ChunkRoundTrip(h: Header, c: Chunk, rest: Bytes)
    requires ChunkFits(c)
    ensures DecodeChunk(h, ChunkBytes(c, h.bigEndian) + rest) == Ok(c, rest)
    decreases c, 0
  {
    ProtoListRoundTrip(h, c.prototypes, DebugBytes(ChunkDebug(c)) + rest);
    ChunkOfParts(h, c, rest);
  }

  /** A prototype whose nested prototypes read back reads back whole. */
  lemma ChunkOfParts(h: Header, c: Chunk, rest: Bytes)
    requires PartsFit(c)
    requires ProtoList(h, |c.prototypes|, ProtoListBytes(c.prototypes, h.bigEndian) + (DebugBytes(ChunkDebug(c)) + rest))
             == Ok(c.prototypes, DebugBytes(ChunkDebug(c)) + rest)
    ensures DecodeChunk(h, ChunkBytes(c, h.bigEndian) + rest) == Ok(c, rest)
  {
    var big := h.bigEndian;
    var t6 := DebugBytes(ChunkDebug(c)) + rest;
    var t5 := ProtoListBytes(c.prototypes, big) + t6;
    var t4 := EncodeUnsigned(|c.prototypes|) + t5;
    var t3 := CountedBytes(c.upvalueInfos, UpvalueBytes) + t4;
    var t2 := CountedBytes(c.constants, ConstantBytes) + t3;
    var t1 := InstructionsBytes(big, c.instructions) + t2;
    ChunkBytesSplit(c, big, rest);
    PartsRoundTrip(c, big, t5, rest);
    DecodeChunkSteps(h, HeadBytes(c) + t1, t1, t2, t3, t4, t5, t6, rest,
      HeadOf(c), c.instructions, c.constants, c.upvalueInfos, c.prototypes, ChunkDebug(c));
  }

  /** The head and the four lists before the nested prototypes read back. */
  lemma FrontRoundTrip(c: Chunk, big: bool, t4: Bytes)
    requires PartsFit(c)
    ensures var t3 := CountedBytes(c.upvalueInfos, UpvalueBytes) + t4;
            var t2 := CountedBytes(c.constants, ConstantBytes) + t3;
            var t1 := InstructionsBytes(big, c.instructions) + t2;
            && ReadChunkHead(HeadBytes(c) + t1) == Ok(HeadOf(c), t1)
            && Instructions(big, t1) == Ok(c.instructions, t2)
            && LengthCount(LoadConstant, t2) == Ok(c.constants, t3)
            && LengthCount(LoadUpvalue, t3) == Ok(c.upvalueInfos, t4)
  {
    var t3 := CountedBytes(c.upvalueInfos, UpvalueBytes) + t4;
    var t2 := CountedBytes(c.constants, ConstantBytes) + t3;
    var t1 := InstructionsBytes(big, c.instructions) + t2;
    HeadRoundTrip(c, t1);
    InstructionsRoundTrip(big, c.instructions, t2);
    ConstantsRoundTrip(c.constants, t3);
    UpvaluesRoundTrip(c.upvalueInfos, t4);
  }

  /**
   * Every part of a prototype but its nested prototypes reads back, and
   * the upvalue count, flags and vararg information are the ones `lua_chunk`
   * rebuilds.
   */
  lemma PartsRoundTrip(c: Chunk, big: bool, t5: Bytes, rest: Bytes)
    requires PartsFit(c)
    ensures var t4 := EncodeUnsigned(|c.prototypes|) + t5;
            var t3 := CountedBytes(c.upvalueInfos, UpvalueBytes) + t4;
            var t2 := CountedBytes(c.constants, ConstantBytes) + t3;
            var t1 := InstructionsBytes(big, c.instructions) + t2;
            && ReadChunkHead(HeadBytes(c) + t1) == Ok(HeadOf(c), t1)
            && Instructions(big, t1) == Ok(c.instructions, t2)
            && LengthCount(LoadConstant, t2) == Ok(c.constants, t3)
            && LengthCount(LoadUpvalue, t3) == Ok(c.upvalueInfos, t4)
            && LuaInt(t4) == Ok(|c.prototypes|, t5)
            && DebugInfo(DebugBytes(ChunkDebug(c)) + rest) == Ok(ChunkDebug(c), rest)
            && c == Chunk(c.name, c.lineDefined, c.lastLineDefined, |c.upvalueInfos| % 256, c.numParams,
                          c.maxStack, 0, VarargInfo(VarargByte(c.isVararg)), c.instructions, c.constants, [],
                          c.prototypes, c.sourceLines, c.locals, c.upvalueInfos, c.upvalueNames)
  {
    var t4 := EncodeUnsigned(|c.prototypes|) + t5;
    FrontRoundTrip(c, big, t4);
    LuaIntRoundTrip(|c.prototypes|, t5);
    DebugRoundTrip(ChunkDebug(c), rest);
    VarargRoundTrip(c.isVararg, 0);
  }

  /** The encoding of a prototype, as the sequence of parts `lua_chunk` reads one after another. */
  lemma ChunkBytesSplit(c: Chunk, big: bool, rest: Bytes)
    ensures ChunkBytes(c, big) + rest ==
      HeadBytes(c) + (InstructionsBytes(big, c.instructions) + (CountedBytes(c.constants, ConstantBytes) +
      (CountedBytes(c.upvalueInfos, UpvalueBytes) + (EncodeUnsigned(|c.prototypes|) +
      (ProtoListBytes(c.prototypes, big) + (DebugBytes(ChunkDebug(c)) + rest))))))
  {
    AppendSeven(HeadBytes(c), InstructionsBytes(big, c.instructions), CountedBytes(c.constants, ConstantBytes),
      CountedBytes(c.upvalueInfos, UpvalueBytes), EncodeUnsigned(|c.prototypes|),
      ProtoListBytes(c.prototypes, big), DebugBytes(ChunkDebug(c)), rest);
  }

  /** `lua_chunk` on an input whose parts each read successfully in turn. */
  lemma DecodeChunkSteps(h: Header, s: Bytes, s1: Bytes, s2: Bytes, s3: Bytes, s4: Bytes, s5: Bytes, s6: Bytes,
                         s7: Bytes, head: ChunkHead, instructions: seq<uint32>, constants: seq<Constant>,
                         upvalues: seq<UpVal>, prototypes: seq<Chunk>, debug: Debug)
    requires ReadChunkHead(s) == Ok(head, s1)
    requires Instructions(h.bigEndian, s1) == Ok(instructions, s2)
    requires LengthCount(LoadConstant, s2) == Ok(constants, s3)
    requires LengthCount(LoadUpvalue, s3) == Ok(upvalues, s4)
    requires LuaInt(s4) == Ok(|prototypes|, s5)
    requires ProtoList(h, |prototypes|, s5) == Ok(prototypes, s6)
    requires DebugInfo(s6) == Ok(debug, s7)
    ensures DecodeChunk(h, s) ==
      Ok(Chunk(head.name, head.lineDefined, head.lastLineDefined, |upvalues| % 256, head.numParams,
               head.maxStack, 0, VarargInfo(head.isVararg), instructions, constants, [], prototypes,
               debug.sourceLines, debug.locals, upvalues, debug.upvalueNames), s7)
  {
  }

  /** `count` of prototypes: the first prototype, then the others. */
  lemma ProtoListSteps(h: Header, cs: seq<Chunk>, s: Bytes, s1: Bytes, s2: Bytes)
    requires cs != []
    requires DecodeChunk(h, s) == Ok(cs[0], s1)
    requires ProtoList(h, |cs| - 1, s1) == Ok(cs[1..], s2)
    ensures ProtoList(h, |cs|, s) == Ok(cs, s2)
  {
    ConsSplit(cs);
  }

  lemma {:induction false} ProtoListRoundTrip(h: Header, cs: seq<Chunk>, rest: Bytes)
    requires forall i :: 0 <= i < |cs| ==> ChunkFits(cs[i])
    ensures ProtoList(h, |cs|, ProtoListBytes(cs, h.bigEndian) + rest) == Ok(cs, rest)
    decreases cs, 1
  {
    var big := h.bigEndian;
    if cs != [] {
      var tail := ProtoListBytes(cs[1..], big) + rest;
      Append(ChunkBytes(cs[0], big), ProtoListBytes(cs[1..], big), rest);
      ChunkRoundTrip(h, cs[0], tail);
      TailFits(cs);
      ProtoListRoundTrip(h, cs[1..], rest);
      ProtoListSteps(h, cs, ChunkBytes(cs[0], big) + tail, tail, rest);
    } else {
      assert ProtoList(h, 0, ProtoListBytes(cs, big) + rest) == Ok([], rest);
    }
  }

  lemma TailFits(cs: seq<Chunk>)
    requires cs != [] && forall i :: 0 <= i < |cs| ==> ChunkFits(cs[i])
    ensures forall i :: 0 <= i < |cs[1..]| ==> ChunkFits(cs[1..][i])
  {
    assert forall i :: 0 <= i < |cs[1..]| ==> cs[1..][i] == cs[i + 1];
  }
}

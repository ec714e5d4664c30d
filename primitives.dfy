/**
 * The byte-level readers every dialect shares (src/lib.rs:360-444): single
 * bytes, tags, fixed-width integers in the header's byte order, `lua_int`,
 * `lua_size_t`, `lua_number`, and the `must`, `alt` and `count` combinators
 * of nom they are built from.
 */
module Primitives {
  import opened LuaTypes

  // ----- nom parsers and combinators -----

  /** `be_u8` / `le_u8`: one byte. */
  function ReadU8(s: Bytes): Result<uint8>
  {
    if |s| == 0 then Err(Reject) else Ok(s[0], s[1..])
  }

  /** `take(n)`: exactly `n` bytes. */
  function Take(n: nat, s: Bytes): Result<Bytes>
  {
    if |s| < n then Err(Reject) else Ok(s[..n], s[n..])
  }

  /** `tag(t)`: the literal bytes `t`. */
  function Tag(t: Bytes, s: Bytes): Result<()>
  {
    if |t| <= |s| && s[..|t|] == t then Ok((), s[|t|..]) else Err(Reject)
  }

  /** `must(cond, p)` (src/lib.rs:360-374): `p` when `cond` holds, else a recoverable error. */
  function Must<T>(cond: bool, r: Result<T>): Result<T>
  {
    if cond then r else Err(Reject)
  }

  /** nom's `alt` of two alternatives: the second is tried only after a recoverable error. */
  function Alt<T>(first: Result<T>, second: Result<T>): Result<T>
  {
    if first.Err? && first.failure == Reject then second else first
  }

  /**
   * nom's `count(p, n)`: `p` exactly `n` times in a row; the first failure of
   * an element is the failure of the list.
   */
  function Many<T>(p: Bytes -> Result<T>, n: nat, s: Bytes): (r: Result<seq<T>>)
    requires forall t :: NoLonger(p(t), t)
    ensures NoLonger(r, s)
    ensures r.Ok? ==> |r.value| == n
    decreases n
  {
    if n == 0 then Ok([], s)
    else
      var (x, s1) :- p(s);
      var (xs, s2) :- Many(p, n - 1, s1);
      Ok([x] + xs, s2)
  }

  /**
   * `count(p(c), n)` for an element parser that depends on a context `c`,
   * such as the header whose widths or byte order it reads with.
   */
  function ManyWith<C(!new), T>(p: (C, Bytes) -> Result<T>, c: C, n: nat, s: Bytes): (r: Result<seq<T>>)
    requires forall x, t :: NoLonger(p(x, t), t)
    ensures NoLonger(r, s)
    ensures r.Ok? ==> |r.value| == n
    decreases n
  {
    if n == 0 then Ok([], s)
    else
      var (x, s1) :- p(c, s);
      var (xs, s2) :- ManyWith(p, c, n - 1, s1);
      Ok([x] + xs, s2)
  }

  /**
   * `k` rounds of a loop: each round runs `step` on the context `c`, the
   * accumulator and the input the last round left; the first failure ends
   * the loop.
   */
  function Rounds<C(!new), A(!new)>(step: (C, A, Bytes) -> Result<A>, c: C, k: nat, a: A, s: Bytes): (r: Result<A>)
    requires forall x, y, t :: NoLonger(step(x, y, t), t)
    ensures NoLonger(r, s)
  {
    if k == 0 then Ok(a, s)
    else
      var (a1, s1) :- Rounds(step, c, k - 1, a, s);
      step(c, a1, s1)
  }

  /** Once a round fails, every later round count gives the same failure. */
  lemma {:induction false} RoundsFailed<C(!new), A(!new)>(step: (C, A, Bytes) -> Result<A>, c: C, k: nat, j: nat, a: A, s: Bytes)
    requires forall x, y, t :: NoLonger(step(x, y, t), t)
    requires k <= j && Rounds(step, c, k, a, s).Err?
    ensures Rounds(step, c, j, a, s) == Rounds(step, c, k, a, s)
    decreases j
  {
    if j > k {
      RoundsFailed(step, c, k, j - 1, a, s);
    }
  }

  /** A list of elements that can only fail recoverably can only fail recoverably. */
  lemma {:induction false} ManyRejects<T>(p: Bytes -> Result<T>, n: nat, s: Bytes)
    requires forall t :: NoLonger(p(t), t)
    requires forall t :: p(t).Err? ==> p(t).failure == Reject
    ensures Many(p, n, s).Err? ==> Many(p, n, s).failure == Reject
    decreases n
  {
    if n > 0 && p(s).Ok? {
      ManyRejects(p, n - 1, p(s).rest);
    }
  }

  // ----- fixed-width integers -----

  /** The unsigned value of little-endian bytes. */
  function LeValue(bs: Bytes): nat
  {
    if |bs| == 0 then 0 else bs[0] + 256 * LeValue(bs[1..])
  }

  /** The unsigned value of big-endian bytes. */
  function BeValue(bs: Bytes): nat
  {
    if |bs| == 0 then 0 else 256 * BeValue(bs[..|bs| - 1]) + bs[|bs| - 1]
  }

  /** The value of `bs` in the byte order `big` selects (`LuaHeader::endian`, src/lib.rs:56-62). */
  function UIntValue(bs: Bytes, big: bool): nat
  {
    if big then BeValue(bs) else LeValue(bs)
  }

  lemma {:induction false} LeValueBound(bs: Bytes)
    ensures LeValue(bs) < Pow256(|bs|)
  {
    if |bs| > 0 {
      LeValueBound(bs[1..]);
    }
  }

  lemma {:induction false} BeValueBound(bs: Bytes)
    ensures BeValue(bs) < Pow256(|bs|)
  {
    if |bs| > 0 {
      BeValueBound(bs[..|bs| - 1]);
    }
  }

  /** A single byte has the same value in either byte order. */
  lemma OneByteValue(bs: Bytes)
    requires |bs| == 1
    ensures LeValue(bs) == BeValue(bs) == bs[0]
  {
    assert bs[1..] == [] && bs[..0] == [];
  }

  lemma UIntValueBound(bs: Bytes, big: bool)
    ensures UIntValue(bs, big) < Pow256(|bs|)
  {
    LeValueBound(bs);
    BeValueBound(bs);
  }

  /** `complete::u16/u32/u64(endian)` and `be_u8`: an `n`-byte unsigned integer. */
  function ReadUInt(n: nat, big: bool, s: Bytes): (r: Result<nat>)
    ensures r.Ok? <==> n <= |s|
    ensures r.Ok? ==> r.rest == s[n..] && r.value == UIntValue(s[..n], big)
    ensures r.Ok? ==> r.value < Pow256(n)
    ensures r.Err? ==> r.failure == Reject
  {
    if |s| < n then Err(Reject)
    else UIntValueBound(s[..n], big); Ok(UIntValue(s[..n], big), s[n..])
  }

  /** `complete::u16(endian)`. */
  function ReadU16(big: bool, s: Bytes): (r: Result<uint16>)
    ensures r.Ok? <==> 2 <= |s|
    ensures r.Ok? ==> r.rest == s[2..] && r.value == UIntValue(s[..2], big)
    ensures r.Err? ==> r.failure == Reject
  {
    var (v, rest) :- ReadUInt(2, big, s);
    Ok(v, rest)
  }

  /** `complete::u32(endian)`. */
  function ReadU32(big: bool, s: Bytes): (r: Result<uint32>)
    ensures r.Ok? <==> 4 <= |s|
    ensures r.Ok? ==> r.rest == s[4..] && r.value == UIntValue(s[..4], big)
    ensures r.Err? ==> r.failure == Reject
  {
    var (v, rest) :- ReadUInt(4, big, s);
    Ok(v, rest)
  }

  predicate IsWidth(w: int) {
    w == 1 || w == 2 || w == 4 || w == 8
  }

  /**
   * The alternation shared by `lua_int` and `lua_size_t`: one `must` branch
   * per supported width, tried widest first.
   */
  function WidthInt(w: uint8, big: bool, s: Bytes): (r: Result<uint64>)
    ensures r.Ok? <==> IsWidth(w) && w <= |s|
    ensures r.Ok? ==> r.rest == s[w..] && r.value == UIntValue(s[..w], big) && r.value < Pow256(w)
    ensures r.Err? ==> r.failure == Reject
  {
    var r :=
      Alt(Must(w == 8, ReadUInt(8, big, s)),
      Alt(Must(w == 4, ReadUInt(4, big, s)),
      Alt(Must(w == 2, ReadUInt(2, big, s)),
          Must(w == 1, ReadUInt(1, true, s)))));
    if r.Err? then Err(r.failure)
    else
      assert r.value < Pow256(8);
      assert w == 1 ==> UIntValue(s[..w], big) == s[0] == BeValue(s[..1]) by {
        if w == 1 { OneByteValue(s[..1]); }
      }
      Ok(r.value, r.rest)
  }

  /** `lua_int` (src/lib.rs:376-394): an integer `int_size` bytes wide. */
  function LuaInt(h: Header, s: Bytes): (r: Result<uint64>)
    ensures r.Ok? <==> IsWidth(h.intSize) && h.intSize <= |s|
    ensures r.Ok? ==> r.rest == s[h.intSize..] && r.value == UIntValue(s[..h.intSize], h.bigEndian)
    ensures r.Ok? ==> r.value < Pow256(h.intSize)
    ensures r.Err? ==> r.failure == Reject
  {
    WidthInt(h.intSize, h.bigEndian, s)
  }

  /** `lua_size_t` (src/lib.rs:396-414): an integer `size_t_size` bytes wide. */
  function LuaSizeT(h: Header, s: Bytes): (r: Result<uint64>)
    ensures r.Ok? <==> IsWidth(h.sizeTSize) && h.sizeTSize <= |s|
    ensures r.Ok? ==> r.rest == s[h.sizeTSize..] && r.value == UIntValue(s[..h.sizeTSize], h.bigEndian)
    ensures r.Ok? ==> r.value < Pow256(h.sizeTSize)
    ensures r.Err? ==> r.failure == Reject
  {
    WidthInt(h.sizeTSize, h.bigEndian, s)
  }

  // ----- numbers -----

  /** `be_i8` / `complete::i16/i32/i64(endian)`, widened to an integer number. */
  function ReadInteger(n: nat, big: bool, s: Bytes): (r: Result<Number>)
    requires n <= 8
  {
    var (v, rest) :- ReadUInt(n, big, s);
    ToSignedRange(v, n);
    Ok(Integer(ToSigned(v, n)), rest)
  }

  lemma ToSignedRange(v: nat, n: nat)
    requires n <= 8 && v < Pow256(n)
    ensures -0x8000_0000_0000_0000 <= ToSigned(v, n) < 0x8000_0000_0000_0000
  {
    Pow256Monotone(n, 8);
  }

  lemma {:induction false} Pow256Monotone(m: nat, n: nat)
    requires m <= n
    ensures Pow256(m) <= Pow256(n)
  {
    if m < n {
      Pow256Monotone(m, n - 1);
    }
  }

  /** The bit pattern of a double stored in the eight bytes `bs`. */
  function DoubleBits(bs: Bytes, big: bool): uint64
    requires |bs| == 8
  {
    UIntValueBound(bs, big);
    assert Pow256(8) == TWO_64;
    UIntValue(bs, big)
  }

  /** `complete::f64(endian)`: the eight bytes of a double, as its bit pattern. */
  function ReadF64(big: bool, s: Bytes): (r: Result<Number>)
    ensures r.Ok? <==> 8 <= |s|
    ensures r.Ok? ==> r.rest == s[8..] && r.value == Float(F64(DoubleBits(s[..8], big)))
    ensures r.Err? ==> r.failure == Reject
  {
    var (v, rest) :- ReadUInt(8, big, s);
    assert v < Pow256(8);
    Ok(Float(F64(v)), rest)
  }

  /** `complete::f32(endian)` widened to `f64`: kept as the single's bit pattern. */
  function ReadF32(big: bool, s: Bytes): Result<Number>
  {
    var (v, rest) :- ReadUInt(4, big, s);
    assert v < Pow256(4);
    Ok(Float(F32(v)), rest)
  }

  /**
   * The number of bytes the integral branch of `lua_number` reads for a
   * declared `number_size`, as coded: 8 -> 1, 4 -> 2, 2 -> 4, 1 -> 8
   * (src/lib.rs:424-427).
   */
  function CodedIntegralWidth(size: uint8): nat
  {
    if size == 8 then 1 else if size == 4 then 2 else if size == 2 then 4 else 8
  }

  /** `lua_number` (src/lib.rs:416-444). */
  function LuaNumber(h: Header, s: Bytes): (r: Result<Number>)
    ensures h.numberIntegral ==>
      (r.Ok? <==> IsWidth(h.numberSize) && CodedIntegralWidth(h.numberSize) <= |s|)
    ensures h.numberIntegral && r.Ok? ==>
      var k := CodedIntegralWidth(h.numberSize);
      r.rest == s[k..] && r.value.Integer? && r.value.i == ToSigned(UIntValue(s[..k], h.bigEndian), k)
    ensures !h.numberIntegral ==>
      (r.Ok? <==> (h.numberSize == 8 || h.numberSize == 4) && h.numberSize <= |s|)
    ensures !h.numberIntegral && r.Ok? ==>
      r.rest == s[h.numberSize..] && r.value.Float? &&
      r.value.f.F64? == (h.numberSize == 8) &&
      r.value.f.Bits() == UIntValue(s[..h.numberSize], h.bigEndian)
    ensures r.Err? ==> r.failure == Reject
  {
    var integral, size, big := h.numberIntegral, h.numberSize, h.bigEndian;
    assert |s| >= 1 ==> BeValue(s[..1]) == LeValue(s[..1]) by {
      if |s| >= 1 { OneByteValue(s[..1]); }
    }
    Alt(Must(integral,
          Alt(Must(size == 8, ReadInteger(1, true, s)),
          Alt(Must(size == 4, ReadInteger(2, big, s)),
          Alt(Must(size == 2, ReadInteger(4, big, s)),
              Must(size == 1, ReadInteger(8, big, s)))))),
        Must(!integral,
          Alt(Must(size == 8, ReadF64(big, s)),
              Must(size == 4, ReadF32(big, s)))))
  }

  // ----- writers, the inverse of the readers above -----

  /** The `n` little-endian bytes of `v` (modulo 256^n). */
  function LeBytes(v: nat, n: nat): (bs: Bytes)
    ensures |bs| == n
  {
    if n == 0 then [] else [v % 256] + LeBytes(v / 256, n - 1)
  }

  /** The `n` big-endian bytes of `v` (modulo 256^n). */
  function BeBytes(v: nat, n: nat): (bs: Bytes)
    ensures |bs| == n
  {
    if n == 0 then [] else BeBytes(v / 256, n - 1) + [v % 256]
  }

  function UIntBytes(v: nat, n: nat, big: bool): (bs: Bytes)
    ensures |bs| == n
  {
    if big then BeBytes(v, n) else LeBytes(v, n)
  }

  lemma {:induction false} LeRoundTrip(v: nat, n: nat)
    requires v < Pow256(n)
    ensures LeValue(LeBytes(v, n)) == v
  {
    if n > 0 {
      LeRoundTrip(v / 256, n - 1);
      assert LeBytes(v, n)[1..] == LeBytes(v / 256, n - 1);
    }
  }

  lemma {:induction false} BeRoundTrip(v: nat, n: nat)
    requires v < Pow256(n)
    ensures BeValue(BeBytes(v, n)) == v
  {
    if n > 0 {
      BeRoundTrip(v / 256, n - 1);
      var bs := BeBytes(v, n);
      assert bs[..|bs| - 1] == BeBytes(v / 256, n - 1);
    }
  }

  /** Reading back the bytes of a value gives the value. */
  lemma UIntRoundTrip(v: nat, n: nat, big: bool)
    requires v < Pow256(n)
    ensures UIntValue(UIntBytes(v, n, big), big) == v
  {
    if big { BeRoundTrip(v, n); } else { LeRoundTrip(v, n); }
  }

  /** Every byte string is the encoding of the value read from it. */
  lemma {:induction false} LeBytesOfValue(bs: Bytes)
    ensures LeBytes(LeValue(bs), |bs|) == bs
  {
    if |bs| > 0 {
      LeBytesOfValue(bs[1..]);
      assert (bs[0] + 256 * LeValue(bs[1..])) / 256 == LeValue(bs[1..]);
    }
  }

  lemma {:induction false} BeBytesOfValue(bs: Bytes)
    ensures BeBytes(BeValue(bs), |bs|) == bs
  {
    if |bs| > 0 {
      var init := bs[..|bs| - 1];
      BeBytesOfValue(init);
      assert (256 * BeValue(init) + bs[|bs| - 1]) / 256 == BeValue(init);
      assert bs == init + [bs[|bs| - 1]];
    }
  }

  /** `lua_int`/`lua_size_t` read back what a writer of the same width and byte order wrote. */
  lemma WidthIntRoundTrip(w: uint8, big: bool, v: nat, rest: Bytes)
    requires IsWidth(w) && v < Pow256(w)
    ensures WidthInt(w, big, UIntBytes(v, w, big) + rest) == Ok(v, rest)
  {
    var s := UIntBytes(v, w, big) + rest;
    assert s[..w] == UIntBytes(v, w, big);
    assert s[w..] == rest;
    UIntRoundTrip(v, w, big);
  }

  /** Every byte string is the encoding, in either byte order, of the value read from it. */
  lemma UIntBytesOfValue(bs: Bytes, big: bool)
    ensures UIntBytes(UIntValue(bs, big), |bs|, big) == bs
  {
    if big {
      BeBytesOfValue(bs);
    } else {
      LeBytesOfValue(bs);
    }
  }

  /** Conversely, whatever `lua_int`/`lua_size_t` accept is such an encoding. */
  lemma WidthIntInverse(w: uint8, big: bool, s: Bytes)
    requires WidthInt(w, big, s).Ok?
    ensures s == UIntBytes(WidthInt(w, big, s).value, w, big) + WidthInt(w, big, s).rest
  {
    UIntBytesOfValue(s[..w], big);
    assert s == s[..w] + s[w..];
  }

  // ----- writers of the header-width integers and numbers -----

  /** `v` as `lua_int` reads it under header `h`. */
  function IntBytes(h: Header, v: nat): (bs: Bytes)
    ensures |bs| == h.intSize
  {
    UIntBytes(v, h.intSize, h.bigEndian)
  }

  /** `v` as `lua_size_t` reads it under header `h`. */
  function SizeBytes(h: Header, v: nat): (bs: Bytes)
    ensures |bs| == h.sizeTSize
  {
    UIntBytes(v, h.sizeTSize, h.bigEndian)
  }

  /** A supported `int_size`, and a value that fits it. */
  predicate FitsInt(h: Header, v: nat) {
    IsWidth(h.intSize) && v < Pow256(h.intSize)
  }

  /** A supported `size_t_size`, and a value that fits it. */
  predicate FitsSize(h: Header, v: nat) {
    IsWidth(h.sizeTSize) && v < Pow256(h.sizeTSize)
  }

  lemma IntRoundTrip(h: Header, v: nat, rest: Bytes)
    requires FitsInt(h, v)
    ensures LuaInt(h, IntBytes(h, v) + rest) == Ok(v, rest)
  {
    WidthIntRoundTrip(h.intSize, h.bigEndian, v, rest);
  }

  lemma SizeRoundTrip(h: Header, v: nat, rest: Bytes)
    requires FitsSize(h, v)
    ensures LuaSizeT(h, SizeBytes(h, v) + rest) == Ok(v, rest)
  {
    WidthIntRoundTrip(h.sizeTSize, h.bigEndian, v, rest);
  }

  /** The two's-complement pattern of `i` in `n` bytes. */
  function Unsigned(i: int, n: nat): nat
    requires Pow256(n) + 2 * i >= 0
  {
    if i < 0 then i + Pow256(n) else i
  }

  /** `Unsigned` and `ToSigned` are inverse on the integers `n` bytes can hold. */
  lemma SignedRoundTrip(i: int, n: nat)
    requires Pow256(n) + 2 * i >= 0 && 2 * i < Pow256(n)
    ensures Unsigned(i, n) < Pow256(n) && ToSigned(Unsigned(i, n), n) == i
  {
  }

  /** The numbers a writer can store under `h`, in the widths `lua_number` reads them. */
  predicate FitsNumber(h: Header, n: Number) {
    if h.numberIntegral then
      IsWidth(h.numberSize) && n.Integer? &&
      Pow256(CodedIntegralWidth(h.numberSize)) + 2 * n.i >= 0 && 2 * n.i < Pow256(CodedIntegralWidth(h.numberSize))
    else
      n.Float? && ((h.numberSize == 8 && n.f.F64?) || (h.numberSize == 4 && n.f.F32?))
  }

  /** A number in the layout `lua_number` reads under `h`. */
  function NumberBytes(h: Header, n: Number): Bytes
    requires FitsNumber(h, n)
  {
    if h.numberIntegral then
      var k := CodedIntegralWidth(h.numberSize);
      UIntBytes(Unsigned(n.i, k), k, h.bigEndian)
    else
      UIntBytes(n.f.Bits(), h.numberSize, h.bigEndian)
  }

  lemma NumberRoundTrip(h: Header, n: Number, rest: Bytes)
    requires FitsNumber(h, n)
    ensures LuaNumber(h, NumberBytes(h, n) + rest) == Ok(n, rest)
  {
    var s := NumberBytes(h, n) + rest;
    if h.numberIntegral {
      var k := CodedIntegralWidth(h.numberSize);
      assert s[..k] == NumberBytes(h, n) && s[k..] == rest;
      SignedRoundTrip(n.i, k);
      UIntRoundTrip(Unsigned(n.i, k), k, h.bigEndian);
    } else {
      assert s[..h.numberSize] == NumberBytes(h, n) && s[h.numberSize..] == rest;
      UIntRoundTrip(n.f.Bits(), h.numberSize, h.bigEndian);
    }
  }

  /**
   * `lua_number` as the format lays it out: an integral number is
   * `number_size` bytes wide. The code reads the widths crosswise instead
   * (see `LuaNumberSwapsWidths`).
   */
  function LuaNumberIntended(h: Header, s: Bytes): (r: Result<Number>)
    ensures h.numberIntegral ==> (r.Ok? <==> IsWidth(h.numberSize) && h.numberSize <= |s|)
    ensures h.numberIntegral && r.Ok? ==>
      r.rest == s[h.numberSize..] && r.value.Integer? &&
      r.value.i == ToSigned(UIntValue(s[..h.numberSize], h.bigEndian), h.numberSize)
  {
    if h.numberIntegral then
      if IsWidth(h.numberSize) then ReadInteger(h.numberSize, h.bigEndian, s) else Err(Reject)
    else LuaNumber(h, s)
  }

  /** Integral numbers round-trip through the intended reading at their declared width. */
  lemma IntendedNumberRoundTrip(h: Header, i: int64, rest: Bytes)
    requires h.numberIntegral && IsWidth(h.numberSize)
    requires Pow256(h.numberSize) + 2 * i >= 0 && 2 * i < Pow256(h.numberSize)
    ensures LuaNumberIntended(h, UIntBytes(Unsigned(i, h.numberSize), h.numberSize, h.bigEndian) + rest) == Ok(Integer(i), rest)
  {
    var k := h.numberSize;
    var bs := UIntBytes(Unsigned(i, k), k, h.bigEndian);
    assert (bs + rest)[..k] == bs && (bs + rest)[k..] == rest;
    SignedRoundTrip(i, k);
    UIntRoundTrip(Unsigned(i, k), k, h.bigEndian);
  }

  /**
   * The integral widths of `lua_number` are swapped: under a little-endian
   * header with 8-byte integral numbers (the files of tests/lua51.rs:30-44,
   * which expect the constant 1337), the eight bytes of 1337 read as the
   * one-byte number 57 and leave seven bytes behind; the intended reading
   * gives 1337.
   */
  lemma LuaNumberSwapsWidths(h: Header, rest: Bytes)
    requires h.numberIntegral && h.numberSize == 8 && !h.bigEndian
    ensures LuaNumber(h, [0x39, 0x05, 0, 0, 0, 0, 0, 0] + rest) == Ok(Integer(57), [0x05, 0, 0, 0, 0, 0, 0] + rest)
    ensures LuaNumberIntended(h, [0x39, 0x05, 0, 0, 0, 0, 0, 0] + rest) == Ok(Integer(1337), rest)
  {
    var bs: Bytes := [0x39, 0x05, 0, 0, 0, 0, 0, 0];
    var s := bs + rest;
    assert s[..1] == [0x39] && s[1..] == [0x05, 0, 0, 0, 0, 0, 0] + rest;
    assert s[..8] == bs && s[8..] == rest;
    LittleEndian1337();
  }

  lemma LittleEndian1337()
    ensures LeValue([0x39, 0x05, 0, 0, 0, 0, 0, 0]) == 1337
    ensures UIntValue([0x39], false) == 57
  {
    var bs: Bytes := [0x39, 0x05, 0, 0, 0, 0, 0, 0];
    var zeros := bs[2..];
    ZeroValue(zeros);
    assert bs[1..][1..] == zeros;
    assert LeValue(bs[1..]) == 5;
    assert [0x39][1..] == [];
  }

  lemma {:induction false} ZeroValue(bs: Bytes)
    requires forall i :: 0 <= i < |bs| ==> bs[i] == 0
    ensures LeValue(bs) == 0
  {
    if bs != [] {
      ZeroValue(bs[1..]);
    }
  }

  lemma Pow256Eight()
    ensures Pow256(8) == TWO_64
  {
  }

  /** Eight little-endian bytes of a 64-bit value, and what follows them. */
  lemma EightBytesRoundTrip(v: nat, s: Bytes, rest: Bytes)
    requires v < TWO_64
    requires s == LeBytes(v, 8) + rest
    ensures |s| >= 8 && LeValue(s[..8]) == v && s[8..] == rest
  {
    Pow256Eight();
    LeRoundTrip(v, 8);
    assert s[..8] == LeBytes(v, 8);
  }

  // ----- concatenation -----

  lemma Append(a: Bytes, b: Bytes, c: Bytes)
    ensures (a + b) + c == a + (b + c)
  {
  }

  lemma ConsSplit<T>(xs: seq<T>)
    requires xs != []
    ensures [xs[0]] + xs[1..] == xs
  {
  }

  /** A right-nested encoding of seven parts followed by `rest`, regrouped part by part. */
  lemma AppendFive(a1: Bytes, a2: Bytes, a3: Bytes, a4: Bytes, a5: Bytes, rest: Bytes)
    ensures (a1 + (a2 + (a3 + (a4 + a5)))) + rest == a1 + (a2 + (a3 + (a4 + (a5 + rest))))
  {
    Append(a4, a5, rest);
    Append(a3, a4 + a5, rest);
    Append(a2, a3 + (a4 + a5), rest);
    Append(a1, a2 + (a3 + (a4 + a5)), rest);
  }

  lemma AppendSix(a1: Bytes, a2: Bytes, a3: Bytes, a4: Bytes, a5: Bytes, a6: Bytes, rest: Bytes)
    ensures (a1 + (a2 + (a3 + (a4 + (a5 + a6))))) + rest == a1 + (a2 + (a3 + (a4 + (a5 + (a6 + rest)))))
  {
    Append(a5, a6, rest);
    Append(a4, a5 + a6, rest);
    Append(a3, a4 + (a5 + a6), rest);
    Append(a2, a3 + (a4 + (a5 + a6)), rest);
    Append(a1, a2 + (a3 + (a4 + (a5 + a6))), rest);
  }

  lemma AppendSeven(a1: Bytes, a2: Bytes, a3: Bytes, a4: Bytes, a5: Bytes, a6: Bytes, a7: Bytes, rest: Bytes)
    ensures (a1 + (a2 + (a3 + (a4 + (a5 + (a6 + a7)))))) + rest ==
            a1 + (a2 + (a3 + (a4 + (a5 + (a6 + (a7 + rest))))))
  {
    Append(a6, a7, rest);
    Append(a5, a6 + a7, rest);
    Append(a4, a5 + (a6 + a7), rest);
    Append(a3, a4 + (a5 + (a6 + a7)), rest);
    Append(a2, a3 + (a4 + (a5 + (a6 + a7))), rest);
    Append(a1, a2 + (a3 + (a4 + (a5 + (a6 + a7)))), rest);
  }

  // ----- lists -----

  /** The concatenated encodings of the elements of `xs`. */
  function Flatten<T>(xs: seq<T>, enc: T -> Bytes): Bytes
  {
    if xs == [] then [] else enc(xs[0]) + Flatten(xs[1..], enc)
  }

  /** `count` reads back a list of elements whose encodings it reads back one by one. */
  lemma {:induction false} ManyRoundTrip<T>(p: Bytes -> Result<T>, enc: T -> Bytes, xs: seq<T>, rest: Bytes)
    requires forall t :: NoLonger(p(t), t)
    requires forall i, t :: 0 <= i < |xs| ==> p(enc(xs[i]) + t) == Ok(xs[i], t)
    ensures Many(p, |xs|, Flatten(xs, enc) + rest) == Ok(xs, rest)
  {
    if xs != [] {
      var tail := Flatten(xs[1..], enc) + rest;
      assert Flatten(xs, enc) + rest == enc(xs[0]) + tail;
      assert p(enc(xs[0]) + tail) == Ok(xs[0], tail);
      forall i, t | 0 <= i < |xs[1..]|
        ensures p(enc(xs[1..][i]) + t) == Ok(xs[1..][i], t)
      {
        assert xs[1..][i] == xs[i + 1];
      }
      ManyRoundTrip(p, enc, xs[1..], rest);
      assert [xs[0]] + xs[1..] == xs;
    }
  }

  /** The concatenated encodings of the elements of `xs` under the context `c`. */
  function FlattenWith<C, T>(enc: (C, T) -> Bytes, c: C, xs: seq<T>): Bytes
  {
    if xs == [] then [] else enc(c, xs[0]) + FlattenWith(enc, c, xs[1..])
  }

  /** `ManyWith` reads back a list of elements whose encodings it reads back one by one. */
  lemma {:induction false} ManyWithRoundTrip<C(!new), T>(p: (C, Bytes) -> Result<T>, enc: (C, T) -> Bytes, c: C, xs: seq<T>, rest: Bytes)
    requires forall x, t :: NoLonger(p(x, t), t)
    requires forall i, t :: 0 <= i < |xs| ==> p(c, enc(c, xs[i]) + t) == Ok(xs[i], t)
    ensures ManyWith(p, c, |xs|, FlattenWith(enc, c, xs) + rest) == Ok(xs, rest)
  {
    if xs != [] {
      var tail := FlattenWith(enc, c, xs[1..]) + rest;
      assert FlattenWith(enc, c, xs) + rest == enc(c, xs[0]) + tail;
      assert p(c, enc(c, xs[0]) + tail) == Ok(xs[0], tail);
      forall i, t | 0 <= i < |xs[1..]|
        ensures p(c, enc(c, xs[1..][i]) + t) == Ok(xs[1..][i], t)
      {
        assert xs[1..][i] == xs[i + 1];
      }
      ManyWithRoundTrip(p, enc, c, xs[1..], rest);
      assert [xs[0]] + xs[1..] == xs;
    }
  }

  /** `length_count(lua_int(header), p)`: a `lua_int` count, then that many elements. */
  function CountedList<T>(h: Header, p: Bytes -> Result<T>, s: Bytes): (r: Result<seq<T>>)
    requires forall t :: NoLonger(p(t), t)
    ensures Shorter(r, s)
  {
    var (n, s1) :- LuaInt(h, s);
    Many(p, n, s1)
  }

  /** The same for an element parser that reads with the header's widths. */
  function CountedListWith<T>(p: (Header, Bytes) -> Result<T>, h: Header, s: Bytes): (r: Result<seq<T>>)
    requires forall x, t :: NoLonger(p(x, t), t)
    ensures Shorter(r, s)
  {
    var (n, s1) :- LuaInt(h, s);
    ManyWith(p, h, n, s1)
  }

  /** The bytes of a counted list: the count as `lua_int` reads it, then the elements. */
  function ListBytes<T>(h: Header, xs: seq<T>, enc: T -> Bytes): Bytes
  {
    IntBytes(h, |xs|) + Flatten(xs, enc)
  }

  function ListBytesWith<T>(h: Header, xs: seq<T>, enc: (Header, T) -> Bytes): Bytes
  {
    IntBytes(h, |xs|) + FlattenWith(enc, h, xs)
  }

  lemma CountedListRoundTrip<T>(h: Header, p: Bytes -> Result<T>, enc: T -> Bytes, xs: seq<T>, rest: Bytes)
    requires forall t :: NoLonger(p(t), t)
    requires FitsInt(h, |xs|)
    requires forall i, t :: 0 <= i < |xs| ==> p(enc(xs[i]) + t) == Ok(xs[i], t)
    ensures CountedList(h, p, ListBytes(h, xs, enc) + rest) == Ok(xs, rest)
  {
    Append(IntBytes(h, |xs|), Flatten(xs, enc), rest);
    IntRoundTrip(h, |xs|, Flatten(xs, enc) + rest);
    ManyRoundTrip(p, enc, xs, rest);
  }

  lemma CountedListWithRoundTrip<T>(h: Header, p: (Header, Bytes) -> Result<T>, enc: (Header, T) -> Bytes,
                                    xs: seq<T>, rest: Bytes)
    requires forall x, t :: NoLonger(p(x, t), t)
    requires FitsInt(h, |xs|)
    requires forall i, t :: 0 <= i < |xs| ==> p(h, enc(h, xs[i]) + t) == Ok(xs[i], t)
    ensures CountedListWith(p, h, ListBytesWith(h, xs, enc) + rest) == Ok(xs, rest)
  {
    Append(IntBytes(h, |xs|), FlattenWith(enc, h, xs), rest);
    IntRoundTrip(h, |xs|, FlattenWith(enc, h, xs) + rest);
    ManyWithRoundTrip(p, enc, h, xs, rest);
  }

  // ----- the vararg byte of the Lua 5.x prototypes -----

  /**
   * The `is_vararg` byte of a Lua 5.x prototype (src/lua51.rs:84-91, and the
   * same in each 5.x decoder): present only when bit 1 is set, with
   * `has_arg` from bit 0 and `needs_arg` from bit 2.
   */
  function VarargInfo(b: uint8): Option<VarArgInfo>
  {
    if (b / 2) % 2 == 1 then Some(VarArgInfo(b % 2 == 1, (b / 4) % 2 == 1)) else None
  }

  /** The vararg byte a writer emits: bit 1 for presence, bits 0 and 2 for the flags. */
  function VarargByte(info: Option<VarArgInfo>): uint8
  {
    match info
    case None => 0
    case Some(v) => 2 + (if v.hasArg then 1 else 0) + (if v.needsArg then 4 else 0)
  }

  /** Every vararg description survives the byte, and only bits 0 to 2 of a byte matter. */
  lemma VarargRoundTrip(info: Option<VarArgInfo>, b: uint8)
    ensures VarargInfo(VarargByte(info)) == info
    ensures VarargInfo(b) == VarargInfo(b % 8)
  {
    LowBits(b / 8, b % 8);
    match info
    case None =>
    case Some(v) =>
      var low := (if v.hasArg then 1 else 0) + (if v.needsArg then 4 else 0);
      LowBits(0, 2 + low);
  }

  /** The bits 0 to 2 of `8 * q + r` are those of `r`. */
  lemma LowBits(q: int, r: int)
    requires q >= 0 && 0 <= r < 8
    ensures (8 * q + r) % 2 == r % 2
    ensures ((8 * q + r) / 2) % 2 == (r / 2) % 2
    ensures ((8 * q + r) / 4) % 2 == (r / 4) % 2
  {
    assert (8 * q + r) / 2 == 4 * q + r / 2;
    assert (8 * q + r) / 4 == 2 * q + r / 4;
  }
}

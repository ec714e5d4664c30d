/**
 * Unsigned LEB128 (DWARF Version 4, section 7.6): seven payload bits per
 * byte, least significant group first, the high bit of a byte set when
 * another byte follows. `LebUnsigned` is the reading the model takes for
 * the `nom_leb128` crate (`leb128_u32`, `leb128_u64`, `leb128_usize`), which
 * is not part of this model; `Encode` is the writer these readers invert.
 */
module Leb128 {
  import opened LuaTypes

  function Pow128(n: nat): (r: nat)
    ensures r >= 1
  {
    if n == 0 then 1 else 128 * Pow128(n - 1)
  }

  /** The value of base-128 digits (the low seven bits of each byte), least significant first. */
  function Digits(ds: Bytes): nat
  {
    if ds == [] then 0 else ds[0] % 128 + 128 * Digits(ds[1..])
  }

  /** The index of the first byte whose high bit is clear; `|s|` when there is none. */
  function RunEnd(s: Bytes): (k: nat)
    ensures k <= |s|
  {
    if s == [] then 0 else if s[0] < 128 then 0 else 1 + RunEnd(s[1..])
  }

  /** Every byte before `RunEnd` has its high bit set, and the byte at `RunEnd` has it clear. */
  lemma {:induction false} RunEndStops(s: Bytes)
    ensures forall i :: 0 <= i < RunEnd(s) ==> s[i] >= 128
    ensures RunEnd(s) < |s| ==> s[RunEnd(s)] < 128
  {
    if s != [] && s[0] >= 128 {
      RunEndStops(s[1..]);
    }
  }

  /** `RunEnd` is the least index with a clear high bit. */
  lemma {:induction false} RunEndIsFirst(s: Bytes, k: nat)
    requires k <= |s|
    requires forall i :: 0 <= i < k ==> s[i] >= 128
    requires k < |s| ==> s[k] < 128
    ensures RunEnd(s) == k
  {
    if k > 0 {
      assert s[0] >= 128;
      RunEndIsFirst(s[1..], k - 1);
    }
  }

  /** A run of `n` bytes with the high bit set reaches at least index `n`. */
  lemma {:induction false} RunEndAtLeast(s: Bytes, n: nat)
    requires n <= |s|
    requires forall i :: 0 <= i < n ==> s[i] >= 128
    ensures RunEnd(s) >= n
  {
    if n > 0 {
      assert s[0] >= 128;
      RunEndAtLeast(s[1..], n - 1);
    }
  }

  lemma ModAdd32(x: int, y: int)
    ensures (x % TWO_32 + y) % TWO_32 == (x + y) % TWO_32
  {
  }

  lemma ModAdd64(x: int, y: int)
    ensures (x % TWO_64 + y) % TWO_64 == (x + y) % TWO_64
  {
  }

  /**
   * Unsigned LEB128 into an integer type whose values are below `limit`:
   * a truncated group or a value that does not fit is a recoverable error.
   */
  function LebUnsigned(limit: nat, s: Bytes): (r: Result<nat>)
    ensures r.Ok? <==> RunEnd(s) < |s| && Digits(s[..RunEnd(s) + 1]) < limit
    ensures r.Ok? ==> r.value == Digits(s[..RunEnd(s) + 1]) && r.rest == s[RunEnd(s) + 1..]
    ensures r.Err? ==> r.failure == Reject
  {
    var k := RunEnd(s);
    if k == |s| then Err(Reject)
    else
      var v := Digits(s[..k + 1]);
      if v < limit then Ok(v, s[k + 1..]) else Err(Reject)
  }

  /** `leb128_u32`. */
  function LebU32(s: Bytes): (r: Result<uint32>)
    ensures Shorter(r, s)
    ensures r.Err? ==> r.failure == Reject
  {
    var (v, rest) :- LebUnsigned(TWO_32, s);
    Ok(v, rest)
  }

  /** `leb128_u64` and `leb128_usize` (a 64-bit `usize`). */
  function LebU64(s: Bytes): (r: Result<uint64>)
    ensures Shorter(r, s)
    ensures r.Err? ==> r.failure == Reject
  {
    var (v, rest) :- LebUnsigned(TWO_64, s);
    Ok(v, rest)
  }

  /** The unsigned LEB128 writer: the shortest encoding of `v`. */
  function Encode(v: nat): (bs: Bytes)
    ensures |bs| >= 1
    decreases v
  {
    if v < 128 then [v] else [v % 128 + 128] + Encode(v / 128)
  }

  lemma {:induction false} DigitsBound(ds: Bytes)
    ensures Digits(ds) < Pow128(|ds|)
  {
    if ds != [] {
      DigitsBound(ds[1..]);
    }
  }

  /** Appending a digit adds it at the next weight. */
  lemma {:induction false} DigitsSnoc(ds: Bytes, d: uint8)
    ensures Digits(ds + [d]) == Digits(ds) + (d % 128) * Pow128(|ds|)
  {
    if ds != [] {
      assert (ds + [d])[1..] == ds[1..] + [d];
      DigitsSnoc(ds[1..], d);
      var w := Pow128(|ds| - 1);
      assert Digits(ds + [d]) == ds[0] % 128 + 128 * Digits(ds[1..] + [d]);
      ScaleDigit(Digits(ds[1..]), d % 128, w);
    } else {
      assert ([] + [d])[1..] == [];
    }
  }

  lemma ScaleDigit(a: int, g: int, w: int)
    ensures 128 * (a + g * w) == 128 * a + g * (128 * w)
  {
  }

  /** The encoding ends in the first byte with a clear high bit, and its digits are `v`. */
  lemma {:induction false} EncodeShape(v: nat, rest: Bytes)
    ensures RunEnd(Encode(v) + rest) == |Encode(v)| - 1
    ensures Digits(Encode(v)) == v
    decreases v
  {
    if v >= 128 {
      EncodeShape(v / 128, rest);
      assert (Encode(v) + rest)[1..] == Encode(v / 128) + rest;
      assert Encode(v)[1..] == Encode(v / 128);
    }
  }

  /** The encoding of a value below 128^n takes at most n bytes. */
  lemma {:induction false} EncodeLength(v: nat, n: nat)
    requires n >= 1 && v < Pow128(n)
    ensures |Encode(v)| <= n
    decreases v
  {
    if v >= 128 {
      EncodeLength(v / 128, n - 1);
    }
  }

  /** Reading the encoding of a value that fits gives the value back. */
  lemma LebRoundTrip(limit: nat, v: nat, rest: Bytes)
    requires v < limit
    ensures LebUnsigned(limit, Encode(v) + rest) == Ok(v, rest)
  {
    var s := Encode(v) + rest;
    EncodeShape(v, rest);
    assert s[..|Encode(v)|] == Encode(v);
    assert s[|Encode(v)|..] == rest;
  }

  /**
   * Every 32-bit value reads back from its shortest encoding. Other
   * encodings of the same value, with redundant high zero groups, are
   * accepted too (`[0x80, 0x00]` reads as 0).
   */
  lemma LebU32RoundTrip(v: uint32, rest: Bytes)
    ensures LebU32(Encode(v) + rest) == Ok(v, rest)
  {
    LebRoundTrip(TWO_32, v, rest);
  }

  lemma LebU64RoundTrip(v: uint64, rest: Bytes)
    ensures LebU64(Encode(v) + rest) == Ok(v, rest)
  {
    LebRoundTrip(TWO_64, v, rest);
  }

  /** A redundant high zero group is read, not refused: two encodings of 0. */
  lemma RedundantZeroGroup()
    ensures LebU32([0x80, 0x00]) == Ok(0, []) && LebU32([0x00]) == Ok(0, [])
  {
    assert Digits([0x80, 0x00]) == 0;
  }

  /**
   * Conversely, an accepted group of bytes without redundant high zero
   * digits is exactly the encoding of the value read.
   */
  lemma {:induction false} EncodeOfDigits(ds: Bytes)
    requires |ds| >= 1
    requires forall i :: 0 <= i < |ds| - 1 ==> ds[i] >= 128
    requires ds[|ds| - 1] < 128
    requires |ds| == 1 || ds[|ds| - 1] != 0
    ensures Encode(Digits(ds)) == ds
  {
    if |ds| > 1 {
      var tail := ds[1..];
      EncodeOfDigits(tail);
      DigitsPositive(tail);
      assert Digits(ds) / 128 == Digits(tail);
      assert Digits(ds) % 128 == ds[0] % 128;
    }
  }

  lemma {:induction false} DigitsPositive(ds: Bytes)
    requires |ds| >= 1 && ds[|ds| - 1] % 128 != 0
    ensures Digits(ds) >= 1
  {
    if |ds| > 1 {
      DigitsPositive(ds[1..]);
    }
  }

  lemma Pow2Plus7(n: nat)
    ensures Pow2(n + 7) == 128 * Pow2(n)
  {
    calc {
      Pow2(n + 7);
      2 * Pow2(n + 6);
      4 * Pow2(n + 5);
      8 * Pow2(n + 4);
      16 * Pow2(n + 3);
      32 * Pow2(n + 2);
      64 * Pow2(n + 1);
      128 * Pow2(n);
    }
  }

  /** A shift by `7 * i + e` bits is a multiplication by `2^e * 128^i`. */
  lemma {:induction false} Pow2Groups(i: nat, e: nat)
    ensures Pow2(7 * i + e) == Pow2(e) * Pow128(i)
  {
    if i > 0 {
      Pow2Groups(i - 1, e);
      Pow2Plus7(7 * (i - 1) + e);
    }
  }
}

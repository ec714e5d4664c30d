/**
 * The Luau decoder (src/luau.rs): a version byte, a global string table, a
 * global prototype table filled in order, and the index of the root. Child
 * prototypes are moved out of the table (`mem::take`), leaving an empty
 * default chunk behind. Panics (an index out of range, an arithmetic
 * overflow caught by a debug build, a failed assertion) are `Panic`.
 */
module Luau {
  import opened LuaTypes
  import opened Primitives
  import opened Leb128

  // ----- varint (src/luau.rs:5-21) -----

  /**
   * `varint` as a function of the input. Each round reads a byte, then ORs
   * its low seven bits in at `shift`: the groups occupy disjoint bits, so
   * the OR is an addition, and `<<` on a 64-bit `usize` drops the bits above
   * bit 63; a shift of 70, in the eleventh round, overflows and panics.
   */
  function DecodeVarint(s: Bytes): (r: Result<uint64>)
    ensures Shorter(r, s)
    ensures r.Ok? <==> RunEnd(s) < |s| && RunEnd(s) < 10
    ensures r.Ok? ==> r.rest == s[RunEnd(s) + 1..]
    ensures r == Err(Panic) <==> RunEnd(s) >= 10 && |s| > 10
  {
    var k := RunEnd(s);
    if k < |s| && k < 10 then Ok(Digits(s[..k + 1]) % TWO_64, s[k + 1..])
    else if |s| > 10 then Err(Panic)
    else Err(Reject)
  }

  /** One round of the loop: the new group lands at weight `2^(7j)`, modulo `2^64`. */
  lemma VarintStep(s: Bytes, j: nat, x: nat)
    requires j < |s| && x == Digits(s[..j]) % TWO_64
    ensures (x + (s[j] % 128) * Pow2(7 * j)) % TWO_64 == Digits(s[..j + 1]) % TWO_64
  {
    PrefixSnoc(s, j);
    Pow2Groups(j, 0);
    AddGroup64(x, Digits(s[..j]), s[j] % 128, Pow128(j), Pow2(7 * j));
  }

  /** One more byte of the prefix adds its group as the most significant digit. */
  lemma PrefixSnoc(s: Bytes, j: nat)
    requires j < |s|
    ensures Digits(s[..j + 1]) == Digits(s[..j]) + (s[j] % 128) * Pow128(j)
  {
    assert s[..j + 1] == s[..j] + [s[j]];
    DigitsSnoc(s[..j], s[j]);
  }

  lemma AddGroup64(x: int, d: int, g: int, w: int, shifted: int)
    requires x == d % TWO_64 && shifted == Pow2(0) * w
    ensures (x + g * shifted) % TWO_64 == (d + g * w) % TWO_64
  {
    assert Pow2(0) == 1;
    ModAdd64(d, g * w);
  }

  /** `varint`: the loop over `x` and `shift`. */
  method Varint(input0: Bytes) returns (r: Result<uint64>)
    ensures r == DecodeVarint(input0)
  {
    var x: nat := 0;
    var shift: nat := 0;
    var input := input0;
    ghost var j: nat := 0;
    while true
      invariant j <= 10 && j <= |input0| && shift == 7 * j
      invariant input == input0[j..]
      invariant forall i :: 0 <= i < j ==> input0[i] >= 128
      invariant x == Digits(input0[..j]) % TWO_64
      decreases |input|
    {
      if |input| == 0 {
        RunEndAtLeast(input0, j);
        return Err(Reject);
      }
      var b := input[0];
      input := input[1..];
      if shift >= 64 {
        RunEndAtLeast(input0, j);
        return Err(Panic);
      }
      VarintStep(input0, j, x);
      x := (x + (b % 128) * Pow2(shift)) % TWO_64;
      shift := shift + 7;
      j := j + 1;
      if b < 128 {
        RunEndIsFirst(input0, j - 1);
        return Ok(x, input);
      }
    }
  }

  /** `varint` reads back the unsigned LEB128 encoding of every 64-bit value. */
  lemma VarintRoundTrip(v: uint64, rest: Bytes)
    ensures DecodeVarint(Encode(v) + rest) == Ok(v, rest)
  {
    EncodeFitsVarint(v, rest);
    LebU64RoundTrip(v, rest);
    VarintIsLeb128(Encode(v) + rest);
  }

  /** The encoding of a 64-bit value ends within ten bytes. */
  lemma EncodeFitsVarint(v: uint64, rest: Bytes)
    ensures RunEnd(Encode(v) + rest) < 10
  {
    EncodeShape(v, rest);
    Pow128Ten();
    EncodeLength(v, 10);
  }

  lemma Pow128Ten()
    ensures Pow128(10) == 0x40_0000_0000_0000_0000
  {
    calc {
      Pow128(10);
      128 * Pow128(9);
      128 * (128 * Pow128(8));
      128 * (128 * (128 * Pow128(7)));
      128 * (128 * (128 * (128 * Pow128(6))));
      128 * (128 * (128 * (128 * (128 * Pow128(5)))));
    }
  }

  /**
   * Within ten bytes, `varint` is the standard LEB128 reading wherever the
   * latter accepts: it differs only by wrapping a ten-byte value of 2^64 or
   * more and by panicking on an eleventh byte.
   */
  lemma VarintIsLeb128(s: Bytes)
    requires LebU64(s).Ok? && RunEnd(s) < 10
    ensures DecodeVarint(s) == LebU64(s)
  {
  }

  /** Ten bytes whose value is 2^70 - 1 read as 2^64 - 1 instead of failing. */
  lemma VarintWraps()
    ensures DecodeVarint([0xFF, 0xFF, 0xFF, 0xFF, 0xFF, 0xFF, 0xFF, 0xFF, 0xFF, 0x7F]) ==
            Ok(TWO_64 - 1, [])
    ensures LebU64([0xFF, 0xFF, 0xFF, 0xFF, 0xFF, 0xFF, 0xFF, 0xFF, 0xFF, 0x7F]).Err?
  {
    var s: Bytes := [0xFF, 0xFF, 0xFF, 0xFF, 0xFF, 0xFF, 0xFF, 0xFF, 0xFF, 0x7F];
    RunEndIsFirst(s, 9);
    assert s[..10] == s;
    assert s[10..] == [];
    AllOnes(s);
    Pow128Ten();
  }

  /** Groups of seven set bits are one less than a power of 128. */
  lemma {:induction false} AllOnes(ds: Bytes)
    requires forall i :: 0 <= i < |ds| ==> ds[i] % 128 == 127
    ensures Digits(ds) == Pow128(|ds|) - 1
  {
    if ds != [] {
      AllOnes(ds[1..]);
    }
  }

  // ----- string (src/luau.rs:23-31) -----

  /**
   * `string`: a `varint` index into the string table, where 0 is the empty
   * string and `i` is `stable[i - 1]`; an index past the table panics.
   */
  function LuauString(stable: seq<Bytes>, s: Bytes): (r: Result<Bytes>)
    ensures Shorter(r, s)
    ensures DecodeVarint(s).Err? ==> r == Err(DecodeVarint(s).failure)
    ensures DecodeVarint(s).Ok? ==>
      var i := DecodeVarint(s).value;
      (i == 0 ==> r == Ok([], DecodeVarint(s).rest)) &&
      (0 < i <= |stable| ==> r == Ok(stable[i - 1], DecodeVarint(s).rest)) &&
      (i > |stable| ==> r == Err(Panic))
  {
    var (i, s1) :- DecodeVarint(s);
    if i == 0 then Ok([], s1)
    else if i - 1 < |stable| then Ok(stable[i - 1], s1)
    else Err(Panic)
  }

  /** The writer's reference to entry `i` of the string table reads back as that entry. */
  lemma StringRoundTrip(stable: seq<Bytes>, i: nat, rest: Bytes)
    requires i < |stable| && i + 1 < TWO_64
    ensures LuauString(stable, Encode(i + 1) + rest) == Ok(stable[i], rest)
  {
    VarintRoundTrip(i + 1, rest);
  }

  // ----- table (src/luau.rs:41-56) -----

  /** The constant of an entry of a `table` constant: its key is a constant, its value `Integer 0`. */
  predicate TableKeys(t: ConstTable, k: seq<Constant>)
  {
    t.arrayPart == [] &&
    forall j :: 0 <= j < |t.hashPart| ==> t.hashPart[j].0 in k && t.hashPart[j].1 == Number(Integer(0))
  }

  /**
   * The loop of `table` from the point where `hash` holds the entries read
   * so far and `n` are left: each entry is a `varint` index into `k`, and
   * an index past `k` panics.
   */
  function TableEntries(k: seq<Constant>, n: nat, hash: seq<(Constant, Constant)>, s: Bytes)
    : (r: Result<seq<(Constant, Constant)>>)
    ensures NoLonger(r, s)
    decreases n
  {
    if n == 0 then Ok(hash, s)
    else
      var (ik, s1) :- DecodeVarint(s);
      if ik >= |k| then Err(Panic)
      else TableEntries(k, n - 1, hash + [(k[ik], Number(Integer(0)))], s1)
  }

  /** The loop appends exactly `n` entries, each a constant of `k` paired with `Integer 0`. */
  lemma {:induction false} TableEntriesShape(k: seq<Constant>, n: nat, hash: seq<(Constant, Constant)>, s: Bytes)
    requires TableEntries(k, n, hash, s).Ok?
    ensures var r := TableEntries(k, n, hash, s).value;
      |r| == |hash| + n && r[..|hash|] == hash &&
      forall j :: |hash| <= j < |r| ==> r[j].0 in k && r[j].1 == Number(Integer(0))
    decreases n
  {
    if n > 0 {
      var (ik, s1) := DecodeVarint(s).Extract();
      var hash' := hash + [(k[ik], Number(Integer(0)))];
      TableEntriesShape(k, n - 1, hash', s1);
      var r := TableEntries(k, n - 1, hash', s1).value;
      assert r[..|hash|] == r[..|hash'|][..|hash|];
      assert r[|hash|] == hash'[|hash|];
    }
  }

  /** `table` as a function of the input: `numk` then `numk` keys, each paired with `Integer 0`. */
  function DecodeTable(k: seq<Constant>, s: Bytes): (r: Result<ConstTable>)
    ensures Shorter(r, s)
    ensures r.Ok? ==> TableKeys(r.value, k) && DecodeVarint(s).Ok? && |r.value.hashPart| == DecodeVarint(s).value
  {
    var (numk, s1) :- DecodeVarint(s);
    var (hash, s2) :- TableEntries(k, numk, [], s1);
    TableEntriesShape(k, numk, [], s1);
    Ok(ConstTable([], hash), s2)
  }

  /** The keys a writer names by their indices into `k`. */
  function KeyIndices(ks: seq<nat>): Bytes
  {
    if ks == [] then [] else Encode(ks[0]) + KeyIndices(ks[1..])
  }

  /** The entries a table with the keys `k[ks[0]], k[ks[1]], ...` holds. */
  function Entries(k: seq<Constant>, ks: seq<nat>): seq<(Constant, Constant)>
    requires forall j :: 0 <= j < |ks| ==> ks[j] < |k|
  {
    if ks == [] then [] else [(k[ks[0]], Number(Integer(0)))] + Entries(k, ks[1..])
  }

  /** Reading the indices of keys gives the entries of those constants. */
  lemma {:induction false} TableEntriesRoundTrip(k: seq<Constant>, ks: seq<nat>, hash: seq<(Constant, Constant)>, rest: Bytes)
    requires forall j :: 0 <= j < |ks| ==> ks[j] < |k| && ks[j] < TWO_64
    ensures TableEntries(k, |ks|, hash, KeyIndices(ks) + rest) == Ok(hash + Entries(k, ks), rest)
  {
    if ks != [] {
      var tail := KeyIndices(ks[1..]) + rest;
      assert KeyIndices(ks) + rest == Encode(ks[0]) + tail;
      VarintRoundTrip(ks[0], tail);
      var entry := (k[ks[0]], Number(Integer(0)));
      TableEntriesStep(k, |ks|, hash, Encode(ks[0]) + tail);
      TableEntriesRoundTrip(k, ks[1..], hash + [entry], rest);
      assert hash + [entry] + Entries(k, ks[1..]) == hash + Entries(k, ks);
    } else {
      assert KeyIndices(ks) + rest == rest;
      assert hash + Entries(k, ks) == hash;
    }
  }

  /** One round of the loop of `table`: a failed index read or an index past `k` ends it. */
  lemma TableEntriesStep(k: seq<Constant>, n: nat, hash: seq<(Constant, Constant)>, s: Bytes)
    requires n > 0
    ensures DecodeVarint(s).Err? ==> TableEntries(k, n, hash, s) == Err(DecodeVarint(s).failure)
    ensures DecodeVarint(s).Ok? && DecodeVarint(s).value >= |k| ==> TableEntries(k, n, hash, s) == Err(Panic)
    ensures DecodeVarint(s).Ok? && DecodeVarint(s).value < |k| ==>
      TableEntries(k, n, hash, s) ==
      TableEntries(k, n - 1, hash + [(k[DecodeVarint(s).value], Number(Integer(0)))], DecodeVarint(s).rest)
  {
  }

  /** The table built from the result of its entry loop. */
  function TableOfEntries(r: Result<seq<(Constant, Constant)>>): Result<ConstTable>
  {
    match r
    case Ok(hash, rest) => Ok(ConstTable([], hash), rest)
    case Err(f) => Err(f)
  }

  lemma DecodeTableUnfold(k: seq<Constant>, s: Bytes)
    ensures DecodeVarint(s).Err? ==> DecodeTable(k, s) == Err(DecodeVarint(s).failure)
    ensures DecodeVarint(s).Ok? ==>
      DecodeTable(k, s) == TableOfEntries(TableEntries(k, DecodeVarint(s).value, [], DecodeVarint(s).rest))
  {
  }

  /** `table`: the `for` loop pushing one entry per key. */
  method Table(input0: Bytes, k: seq<Constant>) returns (r: Result<ConstTable>)
    ensures r == DecodeTable(k, input0)
  {
    DecodeTableUnfold(k, input0);
    var numkResult := Varint(input0);
    if numkResult.Err? {
      return Err(numkResult.failure);
    }
    var numk := numkResult.value;
    var input := numkResult.rest;
    ghost var entries := TableEntries(k, numk, [], input);
    var hash: seq<(Constant, Constant)> := [];
    var left: nat := numk;
    while left > 0
      invariant TableEntries(k, left, hash, input) == entries
    {
      TableEntriesStep(k, left, hash, input);
      left := left - 1;
      var ikResult := Varint(input);
      if ikResult.Err? {
        return Err(ikResult.failure);
      }
      var ik := ikResult.value;
      if ik >= |k| {
        return Err(Panic);
      }
      hash := hash + [(k[ik], Number(Integer(0)))];
      input := ikResult.rest;
    }
    return Ok(ConstTable([], hash), input);
  }

  // ----- constants (src/luau.rs:33-89) -----

  const LBC_CONSTANT_NIL: uint8 := 0
  const LBC_CONSTANT_BOOLEAN: uint8 := 1
  const LBC_CONSTANT_NUMBER: uint8 := 2
  const LBC_CONSTANT_STRING: uint8 := 3
  const LBC_CONSTANT_IMPORT: uint8 := 4
  const LBC_CONSTANT_TABLE: uint8 := 5
  const LBC_CONSTANT_CLOSURE: uint8 := 6

  /**
   * The constant after the tag `ty`, where `earlier` holds the constants
   * before it. An import is read as a big-endian `u32` and kept as nil; a
   * tag above 6 is `unreachable!`.
   */
  function ConstantArm(stable: seq<Bytes>, earlier: seq<Constant>, ty: uint8, s: Bytes): (r: Result<Constant>)
    ensures NoLonger(r, s)
    ensures ty > LBC_CONSTANT_CLOSURE ==> r == Err(Panic)
    ensures r.Ok? && r.value.Table? ==> TableKeys(r.value.table, earlier)
    ensures r.Ok? ==> (r.value.Proto? <==> ty == LBC_CONSTANT_CLOSURE)
    ensures r.Ok? ==> (r.value.Str? <==> ty == LBC_CONSTANT_STRING)
    ensures ty == LBC_CONSTANT_BOOLEAN ==> r == (if |s| >= 1 then Ok(Bool(s[0] != 0), s[1..]) else Err(Reject))
    ensures ty == LBC_CONSTANT_IMPORT ==> r == (if |s| >= 4 then Ok(Null, s[4..]) else Err(Reject))
  {
    if ty == LBC_CONSTANT_NIL then Ok(Null, s)
    else if ty == LBC_CONSTANT_BOOLEAN then
      var (b, s1) :- ReadU8(s);
      Ok(Bool(b != 0), s1)
    else if ty == LBC_CONSTANT_NUMBER then
      var (n, s1) :- ReadF64(false, s);
      Ok(Number(n), s1)
    else if ty == LBC_CONSTANT_STRING then
      var (bs, s1) :- LuauString(stable, s);
      Ok(Str(bs), s1)
    else if ty == LBC_CONSTANT_IMPORT then
      var (_, s1) :- ReadU32(true, s);
      Ok(Null, s1)
    else if ty == LBC_CONSTANT_TABLE then
      var (t, s1) :- DecodeTable(earlier, s);
      Ok(Constant.Table(t), s1)
    else if ty == LBC_CONSTANT_CLOSURE then
      var (i, s1) :- DecodeVarint(s);
      Ok(Proto(i), s1)
    else
      Err(Panic)
  }

  /** Every table constant's keys are constants that come before it in the list. */
  predicate KeysEarlier(cs: seq<Constant>)
  {
    forall i :: 0 <= i < |cs| && cs[i].Table? ==> TableKeys(cs[i].table, cs[..i])
  }

  /** The loop of `constants` from the point where `acc` holds the constants read so far. */
  function ConstantsLoop(stable: seq<Bytes>, n: nat, acc: seq<Constant>, s: Bytes): (r: Result<seq<Constant>>)
    ensures NoLonger(r, s)
    decreases n
  {
    if n == 0 then Ok(acc, s)
    else
      var (ty, s1) :- ReadU8(s);
      var (c, s2) :- ConstantArm(stable, acc, ty, s1);
      ConstantsLoop(stable, n - 1, acc + [c], s2)
  }

  lemma KeysEarlierSnoc(cs: seq<Constant>, c: Constant)
    requires KeysEarlier(cs)
    requires c.Table? ==> TableKeys(c.table, cs)
    ensures KeysEarlier(cs + [c])
  {
    var all := cs + [c];
    forall i | 0 <= i < |all| && all[i].Table?
      ensures TableKeys(all[i].table, all[..i])
    {
      if i < |cs| {
        assert all[..i] == cs[..i];
      } else {
        assert all[..i] == cs;
      }
    }
  }

  /** The loop appends exactly `n` constants after `acc`. */
  lemma {:induction false} ConstantsShape(stable: seq<Bytes>, n: nat, acc: seq<Constant>, s: Bytes)
    requires ConstantsLoop(stable, n, acc, s).Ok?
    ensures var r := ConstantsLoop(stable, n, acc, s).value;
      |r| == |acc| + n && r[..|acc|] == acc
    decreases n
  {
    if n > 0 {
      ConstantsStep(stable, n, acc, s);
      var arm := ConstantArm(stable, acc, ReadU8(s).value, ReadU8(s).rest);
      var c, s2 := arm.value, arm.rest;
      assert ConstantsLoop(stable, n, acc, s) == ConstantsLoop(stable, n - 1, acc + [c], s2);
      ConstantsShape(stable, n - 1, acc + [c], s2);
      var r := ConstantsLoop(stable, n - 1, acc + [c], s2).value;
      assert r[..|acc|] == r[..|acc| + 1][..|acc|];
      assert (acc + [c])[..|acc|] == acc;
    }
  }

  /** A table the loop reads names only constants before it. */
  lemma {:induction false} ConstantsKeys(stable: seq<Bytes>, n: nat, acc: seq<Constant>, s: Bytes)
    requires ConstantsLoop(stable, n, acc, s).Ok?
    requires KeysEarlier(acc)
    ensures KeysEarlier(ConstantsLoop(stable, n, acc, s).value)
    decreases n
  {
    if n > 0 {
      ConstantsStep(stable, n, acc, s);
      var arm := ConstantArm(stable, acc, ReadU8(s).value, ReadU8(s).rest);
      var c, s2 := arm.value, arm.rest;
      assert ConstantsLoop(stable, n, acc, s) == ConstantsLoop(stable, n - 1, acc + [c], s2);
      KeysEarlierSnoc(acc, c);
      ConstantsKeys(stable, n - 1, acc + [c], s2);
    }
  }

  /** `constants` as a function of the input: `num`, then `num` tagged constants. */
  function DecodeConstants(stable: seq<Bytes>, s: Bytes): (r: Result<seq<Constant>>)
    ensures Shorter(r, s)
    ensures r.Ok? ==> DecodeVarint(s).Ok? && |r.value| == DecodeVarint(s).value && KeysEarlier(r.value)
  {
    var (num, s1) :- DecodeVarint(s);
    var (cs, s2) :- ConstantsLoop(stable, num, [], s1);
    ConstantsShape(stable, num, [], s1);
    ConstantsKeys(stable, num, [], s1);
    Ok(cs, s2)
  }

  /** The table and closure arms, which the loop of `constants` reads with their own methods. */
  lemma ConstantArmDispatch(stable: seq<Bytes>, earlier: seq<Constant>, ty: uint8, s: Bytes)
    ensures ty == LBC_CONSTANT_TABLE ==>
      var t := DecodeTable(earlier, s);
      ConstantArm(stable, earlier, ty, s) == if t.Ok? then Ok(Constant.Table(t.value), t.rest) else Err(t.failure)
    ensures ty == LBC_CONSTANT_CLOSURE ==>
      var i := DecodeVarint(s);
      ConstantArm(stable, earlier, ty, s) == if i.Ok? then Ok(Proto(i.value), i.rest) else Err(i.failure)
  {
  }

  /** One round of the loop of `constants`. */
  lemma ConstantsStep(stable: seq<Bytes>, n: nat, acc: seq<Constant>, s: Bytes)
    requires n > 0
    ensures ReadU8(s).Err? ==> ConstantsLoop(stable, n, acc, s) == Err(Reject)
    ensures ReadU8(s).Ok? ==>
      var arm := ConstantArm(stable, acc, ReadU8(s).value, ReadU8(s).rest);
      (arm.Err? ==> ConstantsLoop(stable, n, acc, s) == Err(arm.failure)) &&
      (arm.Ok? ==> ConstantsLoop(stable, n, acc, s) == ConstantsLoop(stable, n - 1, acc + [arm.value], arm.rest))
  {
  }

  lemma DecodeConstantsUnfold(stable: seq<Bytes>, s: Bytes)
    ensures DecodeVarint(s).Err? ==> DecodeConstants(stable, s) == Err(DecodeVarint(s).failure)
    ensures DecodeVarint(s).Ok? ==>
      DecodeConstants(stable, s) == ConstantsLoop(stable, DecodeVarint(s).value, [], DecodeVarint(s).rest)
  {
  }

  /** One arm of the `match` of `constants`, a table and a closure index read by their own methods. */
  method ConstantValue(stable: seq<Bytes>, earlier: seq<Constant>, ty: uint8, s: Bytes) returns (k: Result<Constant>)
    ensures k == ConstantArm(stable, earlier, ty, s)
  {
    ConstantArmDispatch(stable, earlier, ty, s);
    if ty == LBC_CONSTANT_TABLE {
      var t := Table(s, earlier);
      k := if t.Ok? then Ok(Constant.Table(t.value), t.rest) else Err(t.failure);
    } else if ty == LBC_CONSTANT_CLOSURE {
      var i := Varint(s);
      k := if i.Ok? then Ok(Proto(i.value), i.rest) else Err(i.failure);
    } else {
      k := ConstantArm(stable, earlier, ty, s);
    }
  }

  /**
   * `constants`: the `for` loop pushing one constant per round. A table
   * is read by `table` against the constants pushed so far.
   */
  method Constants(input0: Bytes, stable: seq<Bytes>) returns (r: Result<seq<Constant>>)
    ensures r == DecodeConstants(stable, input0)
  {
    DecodeConstantsUnfold(stable, input0);
    var numResult := Varint(input0);
    if numResult.Err? {
      return Err(numResult.failure);
    }
    var input := numResult.rest;
    ghost var all := ConstantsLoop(stable, numResult.value, [], input);
    var result: seq<Constant> := [];
    var left: nat := numResult.value;
    while left > 0
      invariant ConstantsLoop(stable, left, result, input) == all
    {
      ConstantsStep(stable, left, result, input);
      left := left - 1;
      var tyResult := ReadU8(input);
      if tyResult.Err? {
        return Err(tyResult.failure);
      }
      var ty := tyResult.value;
      var k := ConstantValue(stable, result, ty, tyResult.rest);
      if k.Err? {
        return Err(k.failure);
      }
      result := result + [k.value];
      input := k.rest;
    }
    return Ok(result, input);
  }

  /** The constants a writer can emit without a string table: nil, booleans, doubles and closures. */
  predicate Writable(c: Constant)
  {
    c.Null? || c.Bool? || (c.Number? && c.n.Float? && c.n.f.F64?) || (c.Proto? && c.index < TWO_64)
  }

  /** The tag and payload a writer emits for a constant. */
  function ConstantBytes(c: Constant): (bs: Bytes)
    requires Writable(c)
    ensures |bs| >= 1
  {
    match c
    case Null => [LBC_CONSTANT_NIL]
    case Bool(b) => [LBC_CONSTANT_BOOLEAN, if b then 1 else 0]
    case Number(n) => [LBC_CONSTANT_NUMBER] + LeBytes(n.f.bits64, 8)
    case Proto(i) => [LBC_CONSTANT_CLOSURE] + Encode(i)
  }

  function ConstantsBytes(cs: seq<Constant>): Bytes
    requires forall i :: 0 <= i < |cs| ==> Writable(cs[i])
  {
    if cs == [] then [] else ConstantBytes(cs[0]) + ConstantsBytes(cs[1..])
  }

  /** Each written constant reads back. */
  lemma ConstantRoundTrip(stable: seq<Bytes>, earlier: seq<Constant>, c: Constant, rest: Bytes)
    requires Writable(c)
    ensures ReadU8(ConstantBytes(c) + rest).Ok?
    ensures var tagged := ReadU8(ConstantBytes(c) + rest);
      ConstantArm(stable, earlier, tagged.value, tagged.rest) == Ok(c, rest)
  {
    var bs := ConstantBytes(c);
    var s := bs + rest;
    assert s[0] == bs[0] && s[1..] == bs[1..] + rest;
    assert ReadU8(s) == Ok(bs[0], bs[1..] + rest);
    ArmRoundTrip(stable, earlier, c, rest);
  }

  /** The arm of a written constant's tag reads back its payload. */
  lemma ArmRoundTrip(stable: seq<Bytes>, earlier: seq<Constant>, c: Constant, rest: Bytes)
    requires Writable(c)
    ensures ConstantArm(stable, earlier, ConstantBytes(c)[0], ConstantBytes(c)[1..] + rest) == Ok(c, rest)
  {
    match c
    case Null =>
    case Bool(b) =>
      assert ConstantBytes(c)[1..] + rest == [if b then 1 else 0] + rest;
    case Number(n) =>
      FloatRoundTrip(n.f.bits64, rest);
      assert ConstantBytes(c)[1..] == LeBytes(n.f.bits64, 8);
    case Proto(i) =>
      VarintRoundTrip(i, rest);
      assert ConstantBytes(c)[1..] == Encode(i);
  }

  lemma FloatRoundTrip(bits: uint64, rest: Bytes)
    ensures ReadF64(false, LeBytes(bits, 8) + rest) == Ok(Float(F64(bits)), rest)
  {
    var s := LeBytes(bits, 8) + rest;
    assert s[..8] == LeBytes(bits, 8);
    assert s[8..] == rest;
    Pow256Eight();
    LeRoundTrip(bits, 8);
  }

  /** One round of the loop of `constants` reads back one written constant. */
  lemma LoopHeadRoundTrip(stable: seq<Bytes>, n: nat, acc: seq<Constant>, c: Constant, tail: Bytes)
    requires n > 0 && Writable(c)
    ensures ConstantsLoop(stable, n, acc, ConstantBytes(c) + tail) == ConstantsLoop(stable, n - 1, acc + [c], tail)
  {
    ConstantRoundTrip(stable, acc, c, tail);
    ConstantsStep(stable, n, acc, ConstantBytes(c) + tail);
  }

  /** The loop of `constants` reads back a written list after the constants already read. */
  lemma {:induction false} ConstantsLoopRoundTrip(stable: seq<Bytes>, acc: seq<Constant>, cs: seq<Constant>, rest: Bytes)
    requires forall i :: 0 <= i < |cs| ==> Writable(cs[i])
    ensures ConstantsLoop(stable, |cs|, acc, ConstantsBytes(cs) + rest) == Ok(acc + cs, rest)
    decreases |cs|
  {
    if cs == [] {
      assert ConstantsBytes(cs) + rest == rest;
      assert acc + cs == acc;
    } else {
      var c, more := cs[0], cs[1..];
      var tail := ConstantsBytes(more) + rest;
      assert ConstantsBytes(cs) + rest == ConstantBytes(c) + tail;
      assert |more| == |cs| - 1;
      assert acc + [c] + more == acc + cs;
      LoopHeadRoundTrip(stable, |cs|, acc, c, tail);
      ConstantsLoopRoundTrip(stable, acc + [c], more, rest);
    }
  }

  /** `constants` reads back every written list of nil, boolean, double and closure constants. */
  lemma ConstantsRoundTrip(stable: seq<Bytes>, cs: seq<Constant>, rest: Bytes)
    requires forall i :: 0 <= i < |cs| ==> Writable(cs[i])
    requires |cs| < TWO_64
    ensures DecodeConstants(stable, Encode(|cs|) + ConstantsBytes(cs) + rest) == Ok(cs, rest)
  {
    var tail := ConstantsBytes(cs) + rest;
    var s := Encode(|cs|) + ConstantsBytes(cs) + rest;
    assert s == Encode(|cs|) + tail;
    VarintRoundTrip(|cs|, tail);
    DecodeConstantsUnfold(stable, s);
    ConstantsLoopRoundTrip(stable, [], cs, rest);
    assert [] + cs == cs;
  }

  // ----- string table (src/luau.rs:93-103) -----

  /** One entry of the string table: a `varint` length and that many bytes. */
  function StringEntry(s: Bytes): (r: Result<Bytes>)
    ensures Shorter(r, s)
    ensures r.Ok? ==>
      DecodeVarint(s).Ok? && |r.value| == DecodeVarint(s).value &&
      DecodeVarint(s).rest == r.value + r.rest
  {
    var (n, s1) :- DecodeVarint(s);
    var (bs, s2) :- Take(n, s1);
    assert s1 == bs + s2;
    Ok(bs, s2)
  }

  /** The string table: a `varint` count of entries, kept in order. */
  function StringTable(s: Bytes): (r: Result<seq<Bytes>>)
    ensures Shorter(r, s)
    ensures r.Ok? ==> DecodeVarint(s).Ok? && |r.value| == DecodeVarint(s).value
  {
    var (n, s1) :- DecodeVarint(s);
    Many(StringEntry, n, s1)
  }

  /** The writer of one string table entry. */
  function StringEntryBytes(bs: Bytes): Bytes
  {
    Encode(|bs|) + bs
  }

  lemma StringEntryRoundTrip(bs: Bytes, rest: Bytes)
    requires |bs| < TWO_64
    ensures StringEntry(StringEntryBytes(bs) + rest) == Ok(bs, rest)
  {
    assert StringEntryBytes(bs) + rest == Encode(|bs|) + (bs + rest);
    VarintRoundTrip(|bs|, bs + rest);
    assert (bs + rest)[..|bs|] == bs;
    assert (bs + rest)[|bs|..] == rest;
  }

  /** The string table reads back every written table, entries in order. */
  lemma StringTableRoundTrip(strings: seq<Bytes>, rest: Bytes)
    requires |strings| < TWO_64
    requires forall i :: 0 <= i < |strings| ==> |strings[i]| < TWO_64
    ensures StringTable(Encode(|strings|) + Flatten(strings, StringEntryBytes) + rest) == Ok(strings, rest)
  {
    var body := Flatten(strings, StringEntryBytes) + rest;
    assert Encode(|strings|) + Flatten(strings, StringEntryBytes) + rest == Encode(|strings|) + body;
    VarintRoundTrip(|strings|, body);
    forall i, t | 0 <= i < |strings|
      ensures StringEntry(StringEntryBytes(strings[i]) + t) == Ok(strings[i], t)
    {
      StringEntryRoundTrip(strings[i], t);
    }
    ManyRoundTrip(StringEntry, StringEntryBytes, strings, rest);
  }

  // ----- the pieces of one prototype (src/luau.rs:112-152) -----

  /** `length_count(varint, u32 little-endian)`: the instruction words. */
  function Instructions(s: Bytes): (r: Result<seq<uint32>>)
    ensures Shorter(r, s)
    ensures r.Ok? ==> DecodeVarint(s).Ok? && |r.value| == DecodeVarint(s).value
    ensures r.Err? ==> r.failure == Reject || DecodeVarint(s) == Err(Panic)
  {
    var (n, s1) :- DecodeVarint(s);
    ManyRejects(Instruction, n, s1);
    Many(Instruction, n, s1)
  }

  /** One little-endian instruction word. */
  function Instruction(s: Bytes): (r: Result<uint32>)
    ensures r.Ok? <==> 4 <= |s|
    ensures r.Ok? ==> r.rest == s[4..] && r.value == LeValue(s[..4])
    ensures r.Err? ==> r.failure == Reject
  {
    ReadU32(false, s)
  }

  /** The bytes a writer emits for one instruction word. */
  function WordBytes(w: uint32): Bytes
  {
    UIntBytes(w, 4, false)
  }

  /** The bytes a writer emits for the instruction list: a `varint` count, then the words. */
  function InstructionsBytes(ws: seq<uint32>): Bytes
  {
    Encode(|ws|) + Flatten(ws, WordBytes)
  }

  /** A written instruction list reads back. */
  lemma InstructionsRoundTrip(ws: seq<uint32>, rest: Bytes)
    requires |ws| < TWO_64
    ensures Instructions(InstructionsBytes(ws) + rest) == Ok(ws, rest)
  {
    var body := Flatten(ws, WordBytes) + rest;
    assert InstructionsBytes(ws) + rest == Encode(|ws|) + body;
    VarintRoundTrip(|ws|, body);
    forall i, t | 0 <= i < |ws|
      ensures Instruction(WordBytes(ws[i]) + t) == Ok(ws[i], t)
    {
      var u := WordBytes(ws[i]) + t;
      assert u[..4] == UIntBytes(ws[i], 4, false);
      assert u[4..] == t;
      UIntRoundTrip(ws[i], 4, false);
    }
    ManyRoundTrip(Instruction, WordBytes, ws, rest);
  }

  /** `n` chunks, each a chunk whose every field is zero or empty. */
  function Empties(n: nat): (m: multiset<Chunk>)
    ensures |m| == n && m[EmptyChunk] == n
  {
    if n == 0 then multiset{} else Empties(n - 1) + multiset{EmptyChunk}
  }

  /** The children of a prototype, and the prototype table they were moved out of. */
  datatype Taken = Taken(children: seq<Chunk>, table: seq<Chunk>)

  /**
   * The child list: each `varint` index moves the prototype at that slot
   * out of `protos` with `core::mem::take`, leaving a default chunk
   * behind; an index out of range panics. The value is the children and
   * the prototype table left.
   */
  function ChildrenLoop(protos: seq<Chunk>, n: nat, acc: seq<Chunk>, s: Bytes): (r: Result<Taken>)
    ensures NoLonger(r, s)
    decreases n
  {
    if n == 0 then Ok(Taken(acc, protos), s)
    else
      var (i, s1) :- DecodeVarint(s);
      if i >= |protos| then Err(Panic)
      else ChildrenLoop(protos[i := EmptyChunk], n - 1, acc + [protos[i]], s1)
  }

  /**
   * Moving children out loses no prototype and duplicates none: the
   * children and the table left hold together what the table held, plus
   * one default chunk per child taken.
   */
  lemma {:induction false} ChildrenConserved(protos: seq<Chunk>, n: nat, acc: seq<Chunk>, s: Bytes)
    requires ChildrenLoop(protos, n, acc, s).Ok?
    ensures var r := ChildrenLoop(protos, n, acc, s).value;
      |r.children| == |acc| + n && r.children[..|acc|] == acc && |r.table| == |protos| &&
      multiset(r.children) + multiset(r.table) == multiset(acc) + multiset(protos) + Empties(n)
    decreases n
  {
    if n > 0 {
      var (i, s1) := DecodeVarint(s).Extract();
      var protos' := protos[i := EmptyChunk];
      ChildrenConserved(protos', n - 1, acc + [protos[i]], s1);
      var children := ChildrenLoop(protos', n - 1, acc + [protos[i]], s1).value.children;
      assert children[..|acc|] == children[..|acc| + 1][..|acc|];
      TakeSlot(protos, i);
    }
  }

  lemma TakeSlot(protos: seq<Chunk>, i: nat)
    requires i < |protos|
    ensures multiset(protos[i := EmptyChunk]) + multiset{protos[i]} == multiset(protos) + multiset{EmptyChunk}
  {
    var m := multiset(protos);
    assert multiset(protos[i := EmptyChunk]) == m[protos[i] := m[protos[i]] - 1] + multiset{EmptyChunk};
  }

  /** The list of children of one prototype. */
  function Children(protos: seq<Chunk>, s: Bytes): (r: Result<Taken>)
    ensures Shorter(r, s)
    ensures r.Ok? ==>
      |r.value.table| == |protos| &&
      multiset(r.value.children) + multiset(r.value.table) == multiset(protos) + Empties(|r.value.children|)
  {
    var (n, s1) :- DecodeVarint(s);
    var (ps, s2) :- ChildrenLoop(protos, n, [], s1);
    ChildrenConserved(protos, n, [], s1);
    var none: seq<Chunk> := [];
    assert multiset(none) == multiset{};
    Ok(ps, s2)
  }

  /**
   * A slot named twice: the first child is the prototype that was there,
   * the second the default chunk that `mem::take` left behind.
   */
  lemma TakeTwice(protos: seq<Chunk>, n: nat, acc: seq<Chunk>, i: uint64, rest: Bytes)
    requires n >= 2 && i < |protos|
    ensures ChildrenLoop(protos, n, acc, Encode(i) + Encode(i) + rest) ==
      ChildrenLoop(protos[i := EmptyChunk], n - 2, acc + [protos[i], EmptyChunk], rest)
  {
    var p1 := protos[i := EmptyChunk];
    var s2 := Encode(i) + rest;
    var s := Encode(i) + s2;
    assert Encode(i) + Encode(i) + rest == s;
    VarintRoundTrip(i, s2);
    ChildStep(protos, n, acc, s);
    VarintRoundTrip(i, rest);
    ChildStep(p1, n - 1, acc + [protos[i]], s2);
    assert p1[i := EmptyChunk] == p1;
    assert acc + [protos[i]] + [p1[i]] == acc + [protos[i], EmptyChunk];
  }

  /** One round of the child list: the slot named moves to the children. */
  lemma ChildStep(protos: seq<Chunk>, n: nat, acc: seq<Chunk>, s: Bytes)
    requires n > 0 && DecodeVarint(s).Ok? && DecodeVarint(s).value < |protos|
    ensures var i := DecodeVarint(s).value;
      ChildrenLoop(protos, n, acc, s) == ChildrenLoop(protos[i := EmptyChunk], n - 1, acc + [protos[i]], DecodeVarint(s).rest)
  {
  }

  /** The number of 4-byte absolute line entries for `n` instructions and gap exponent `lg`. */
  function Intervals(n: nat, lg: nat): nat
    requires n > 0
  {
    var p := Pow2(lg);
    QuotientNat(n - 1, p);
    (n - 1) / p + 1
  }

  lemma QuotientNat(a: nat, b: nat)
    requires b >= 1
    ensures a / b >= 0
  {
  }

  /**
   * The line information, read when `has_lineinfo > 0` for `n`
   * instructions: the gap exponent `lg`, then `n` bytes of deltas and
   * `((n - 1) >> lg) + 1` absolute lines of 4 bytes, all discarded.
   * `n - 1` underflows for `n == 0` and the shift overflows for
   * `lg >= 64`; both panic.
   */
  function LineInfo(n: nat, s: Bytes): (r: Result<()>)
    ensures Shorter(r, s)
    ensures r.Ok? <==>
      |s| >= 1 && n > 0 && s[0] < 64 && |s| >= 1 + n + 4 * Intervals(n, s[0])
    ensures r.Ok? ==> r.rest == s[1 + n + 4 * Intervals(n, s[0])..]
    ensures r == Err(Panic) <==> |s| >= 1 && (n == 0 || s[0] >= 64)
  {
    var (lg, s1) :- ReadU8(s);
    if n == 0 || lg >= 64 then Err(Panic)
    else
      var (_, s2) :- Take(n, s1);
      var (_, s3) :- Take(4 * Intervals(n, lg), s2);
      Ok((), s3)
  }

  /** One local: a name from the string table, two `varint` pcs and a register byte. */
  function LocalEntry(stable: seq<Bytes>, s: Bytes): (r: Result<Local>)
    ensures Shorter(r, s)
  {
    var (name, s1) :- LuauString(stable, s);
    var (startPc, s2) :- DecodeVarint(s1);
    var (endPc, s3) :- DecodeVarint(s2);
    var (reg, s4) :- ReadU8(s3);
    Ok(Local(name, startPc, endPc, reg), s4)
  }

  /** `n` locals in order. */
  function Locals(stable: seq<Bytes>, n: nat, s: Bytes): (r: Result<seq<Local>>)
    ensures NoLonger(r, s)
    ensures r.Ok? ==> |r.value| == n
  {
    if n == 0 then Ok([], s)
    else
      var (l, s1) :- LocalEntry(stable, s);
      var (ls, s2) :- Locals(stable, n - 1, s1);
      Ok([l] + ls, s2)
  }

  /** `n` upvalue names in order, each an index into the string table. */
  function UpvalueNames(stable: seq<Bytes>, n: nat, s: Bytes): (r: Result<seq<Bytes>>)
    ensures NoLonger(r, s)
    ensures r.Ok? ==> |r.value| == n
  {
    if n == 0 then Ok([], s)
    else
      var (name, s1) :- LuauString(stable, s);
      var (names, s2) :- UpvalueNames(stable, n - 1, s1);
      Ok([name] + names, s2)
  }

  datatype Debug = Debug(locals: seq<Local>, upvalueNames: seq<Bytes>)

  /**
   * The debug information: a flag byte, then, when it is positive, the
   * locals and the upvalue names; both lists are empty when it is zero.
   */
  function DebugInfo(stable: seq<Bytes>, s: Bytes): (r: Result<Debug>)
    ensures Shorter(r, s)
    ensures r.Ok? && s[0] == 0 ==> r == Ok(Debug([], []), s[1..])
  {
    var (flag, s1) :- ReadU8(s);
    if flag == 0 then Ok(Debug([], []), s1)
    else
      var (nl, s2) :- DecodeVarint(s1);
      var (locals, s3) :- Locals(stable, nl, s2);
      var (nu, s4) :- DecodeVarint(s3);
      var (names, s5) :- UpvalueNames(stable, nu, s4);
      Ok(Debug(locals, names), s5)
  }

  /** The bytes a writer emits for a local whose name is string-table entry `i`. */
  function LocalBytes(i: nat, l: Local): Bytes
  {
    Encode(i + 1) + Encode(l.startPc) + Encode(l.endPc) + [l.reg]
  }

  /** A written local reads back, its name looked up in the string table. */
  lemma LocalEntryRoundTrip(stable: seq<Bytes>, i: nat, l: Local, rest: Bytes)
    requires i < |stable| && i + 1 < TWO_64 && l.name == stable[i]
    ensures LocalEntry(stable, LocalBytes(i, l) + rest) == Ok(l, rest)
  {
    var s3 := [l.reg] + rest;
    var s2 := Encode(l.endPc) + s3;
    var s1 := Encode(l.startPc) + s2;
    assert LocalBytes(i, l) + rest == Encode(i + 1) + s1;
    StringRoundTrip(stable, i, s1);
    VarintRoundTrip(l.startPc, s2);
    VarintRoundTrip(l.endPc, s3);
  }

  /** `idx[k]` is an in-range string-table index whose entry is `names[k]`. */
  predicate NamedBy(stable: seq<Bytes>, idx: seq<nat>, names: seq<Bytes>)
  {
    |idx| == |names| &&
    forall k :: 0 <= k < |idx| ==> idx[k] < |stable| && idx[k] + 1 < TWO_64 && stable[idx[k]] == names[k]
  }

  function LocalNames(ls: seq<Local>): (names: seq<Bytes>)
    ensures |names| == |ls| && forall k :: 0 <= k < |ls| ==> names[k] == ls[k].name
  {
    if ls == [] then [] else [ls[0].name] + LocalNames(ls[1..])
  }

  function LocalsBytes(idx: seq<nat>, ls: seq<Local>): Bytes
    requires |idx| == |ls|
  {
    if ls == [] then [] else LocalBytes(idx[0], ls[0]) + LocalsBytes(idx[1..], ls[1..])
  }

  lemma NamedByTail(stable: seq<Bytes>, idx: seq<nat>, names: seq<Bytes>)
    requires NamedBy(stable, idx, names) && |idx| > 0
    ensures NamedBy(stable, idx[1..], names[1..])
  {
    forall k | 0 <= k < |idx| - 1
      ensures idx[1..][k] < |stable| && idx[1..][k] + 1 < TWO_64 && stable[idx[1..][k]] == names[1..][k]
    {
      assert idx[1..][k] == idx[k + 1] && names[1..][k] == names[k + 1];
    }
  }

  /** A written list of locals reads back. */
  lemma {:induction false} LocalsRoundTrip(stable: seq<Bytes>, idx: seq<nat>, ls: seq<Local>, rest: Bytes)
    requires NamedBy(stable, idx, LocalNames(ls))
    ensures Locals(stable, |ls|, LocalsBytes(idx, ls) + rest) == Ok(ls, rest)
  {
    if ls != [] {
      var tail := LocalsBytes(idx[1..], ls[1..]) + rest;
      LocalsBytesCons(idx, ls, rest);
      LocalEntryRoundTrip(stable, idx[0], ls[0], tail);
      NamedByTail(stable, idx, LocalNames(ls));
      assert LocalNames(ls)[1..] == LocalNames(ls[1..]);
      LocalsRoundTrip(stable, idx[1..], ls[1..], rest);
      LocalsStep(stable, |ls|, LocalBytes(idx[0], ls[0]) + tail, ls[0], tail, ls[1..], rest);
      assert [ls[0]] + ls[1..] == ls;
    }
  }

  lemma LocalsBytesCons(idx: seq<nat>, ls: seq<Local>, rest: Bytes)
    requires |idx| == |ls| && ls != []
    ensures LocalsBytes(idx, ls) + rest == LocalBytes(idx[0], ls[0]) + (LocalsBytes(idx[1..], ls[1..]) + rest)
  {
  }

  /** One step of `Locals`: an entry, then the remaining locals. */
  lemma LocalsStep(stable: seq<Bytes>, n: nat, s: Bytes, l: Local, s1: Bytes, ls: seq<Local>, s2: Bytes)
    requires n > 0 && LocalEntry(stable, s) == Ok(l, s1) && Locals(stable, n - 1, s1) == Ok(ls, s2)
    ensures Locals(stable, n, s) == Ok([l] + ls, s2)
  {
  }

  /** The bytes a writer emits for a reference to string-table entry `i`. */
  function NameRefBytes(i: nat): Bytes
  {
    Encode(i + 1)
  }

  /** A written list of upvalue names reads back. */
  lemma {:induction false} UpvalueNamesRoundTrip(stable: seq<Bytes>, idx: seq<nat>, names: seq<Bytes>, rest: Bytes)
    requires NamedBy(stable, idx, names)
    ensures UpvalueNames(stable, |idx|, Flatten(idx, NameRefBytes) + rest) == Ok(names, rest)
  {
    if idx != [] {
      var tail := Flatten(idx[1..], NameRefBytes) + rest;
      assert Flatten(idx, NameRefBytes) + rest == Encode(idx[0] + 1) + tail;
      StringRoundTrip(stable, idx[0], tail);
      NamedByTail(stable, idx, names);
      UpvalueNamesRoundTrip(stable, idx[1..], names[1..], rest);
      assert [names[0]] + names[1..] == names;
    }
  }

  /** The bytes a writer emits for debug information under a positive flag byte. */
  function DebugBytes(flag: uint8, lidx: seq<nat>, ls: seq<Local>, nidx: seq<nat>): Bytes
    requires |lidx| == |ls|
  {
    [flag] + Encode(|ls|) + LocalsBytes(lidx, ls) + Encode(|nidx|) + Flatten(nidx, NameRefBytes)
  }

  /** Written debug information reads back, locals and upvalue names in order. */
  lemma {:induction false} DebugInfoRoundTrip(stable: seq<Bytes>, flag: uint8, lidx: seq<nat>, ls: seq<Local>,
                           nidx: seq<nat>, names: seq<Bytes>, rest: Bytes)
    requires flag > 0 && |ls| < TWO_64 && |nidx| < TWO_64
    requires NamedBy(stable, lidx, LocalNames(ls)) && NamedBy(stable, nidx, names)
    ensures DebugInfo(stable, DebugBytes(flag, lidx, ls, nidx) + rest) == Ok(Debug(ls, names), rest)
  {
    var s4 := Flatten(nidx, NameRefBytes) + rest;
    var s3 := Encode(|nidx|) + s4;
    var s2 := LocalsBytes(lidx, ls) + s3;
    var s1 := Encode(|ls|) + s2;
    DebugBytesSplit(flag, lidx, ls, nidx, rest);
    VarintRoundTrip(|ls|, s2);
    LocalsRoundTrip(stable, lidx, ls, s3);
    VarintRoundTrip(|nidx|, s4);
    UpvalueNamesRoundTrip(stable, nidx, names, rest);
    DebugInfoStep(stable, [flag] + s1, flag, s1, |ls|, s2, ls, s3, |nidx|, s4, names, rest);
  }

  lemma DebugBytesSplit(flag: uint8, lidx: seq<nat>, ls: seq<Local>, nidx: seq<nat>, rest: Bytes)
    requires |lidx| == |ls|
    ensures DebugBytes(flag, lidx, ls, nidx) + rest ==
      [flag] + (Encode(|ls|) + (LocalsBytes(lidx, ls) + (Encode(|nidx|) + (Flatten(nidx, NameRefBytes) + rest))))
  {
    Concat5([flag], Encode(|ls|), LocalsBytes(lidx, ls), Encode(|nidx|), Flatten(nidx, NameRefBytes), rest);
  }

  lemma Concat5(a: Bytes, b: Bytes, c: Bytes, d: Bytes, e: Bytes, rest: Bytes)
    ensures a + b + c + d + e + rest == a + (b + (c + (d + (e + rest))))
  {
  }

  /** `DebugInfo` under a positive flag: the two counted lists in order. */
  lemma {:induction false} DebugInfoStep(stable: seq<Bytes>, s: Bytes, flag: uint8, s1: Bytes, nl: nat, s2: Bytes, ls: seq<Local>,
                      s3: Bytes, nu: nat, s4: Bytes, names: seq<Bytes>, s5: Bytes)
    requires flag > 0 && ReadU8(s) == Ok(flag, s1) && DecodeVarint(s1) == Ok(nl, s2)
    requires Locals(stable, nl, s2) == Ok(ls, s3) && DecodeVarint(s3) == Ok(nu, s4)
    requires UpvalueNames(stable, nu, s4) == Ok(names, s5)
    ensures DebugInfo(stable, s) == Ok(Debug(ls, names), s5)
  {
  }

  /** The line information is present only when its flag byte is positive. */
  function OptionalLineInfo(flag: uint8, n: nat, s: Bytes): (r: Result<()>)
    ensures NoLonger(r, s)
    ensures flag == 0 ==> r == Ok((), s)
  {
    if flag > 0 then LineInfo(n, s) else Ok((), s)
  }

  // ----- one prototype and the whole chunk (src/luau.rs:91-185) -----

  /** A prototype, and the prototype table its children were moved out of. */
  datatype Moved = Moved(proto: Chunk, table: seq<Chunk>)

  /**
   * One prototype of the prototype table, read against the string table
   * and the prototypes already read: the prototype, and the table left
   * after its children were moved out.
   */
  function DecodeProto(stable: seq<Bytes>, protos: seq<Chunk>, s: Bytes): (r: Result<Moved>)
    ensures Shorter(r, s)
    ensures r.Ok? ==>
      var c := r.value.proto;
      |r.value.table| == |protos| && multiset(c.prototypes) + multiset(r.value.table) == multiset(protos) + Empties(|c.prototypes|)
    ensures r.Ok? ==> |s| >= 4 && ProtoFields(r.value.proto, s[0], s[1], s[2], s[3])
  {
    var (b, s1) :- Take(4, s);
    ProtoBody(stable, protos, b[0], b[1], b[2], b[3], s1)
  }

  /**
   * What `bytecode` sets of a prototype from its four leading bytes, and
   * the fields it leaves at their defaults.
   */
  predicate ProtoFields(c: Chunk, maxStack: uint8, numParams: uint8, numUpvalues: uint8, isVararg: uint8)
  {
    c.maxStack == maxStack && c.numParams == numParams && c.numUpvalues == numUpvalues &&
    c.isVararg == (if isVararg > 0 then Some(VarArgInfo(true, true)) else None) &&
    c.lastLineDefined == 0 && c.flags == 0 && KeysEarlier(c.constants) &&
    c.numConstants == [] && c.sourceLines == [] && c.upvalueInfos == []
  }

  /** The prototype after its four leading bytes. */
  function ProtoBody(stable: seq<Bytes>, protos: seq<Chunk>, maxStack: uint8, numParams: uint8,
                     numUpvalues: uint8, isVararg: uint8, s: Bytes): (r: Result<Moved>)
    ensures Shorter(r, s)
    ensures r.Ok? ==>
      var c := r.value.proto;
      |r.value.table| == |protos| && multiset(c.prototypes) + multiset(r.value.table) == multiset(protos) + Empties(|c.prototypes|)
    ensures r.Ok? ==> ProtoFields(r.value.proto, maxStack, numParams, numUpvalues, isVararg)
  {
    var (instructions, s1) :- Instructions(s);
    var (constants, s2) :- DecodeConstants(stable, s1);
    var (kids, s3) :- Children(protos, s2);
    var (tail, s4) :- ProtoTail(stable, |instructions|, s3);
    var vararg := if isVararg > 0 then Some(VarArgInfo(true, true)) else None;
    var c := Chunk(tail.name, tail.lineDefined, 0, numUpvalues, numParams, maxStack, 0, vararg,
      instructions, constants, [], kids.children, [], tail.debug.locals, [], tail.debug.upvalueNames);
    Ok(Moved(c, kids.table), s4)
  }

  datatype Tail = Tail(lineDefined: uint64, name: Bytes, debug: Debug)

  /**
   * The fields after the children of a prototype with `n` instructions:
   * the line defined, the name, the optional line information and the
   * debug information.
   */
  function ProtoTail(stable: seq<Bytes>, n: nat, s: Bytes): (r: Result<Tail>)
    ensures Shorter(r, s)
  {
    var (lineDefined, s1) :- DecodeVarint(s);
    var (name, s2) :- LuauString(stable, s1);
    var (hasLineinfo, s3) :- ReadU8(s2);
    var (_, s4) :- OptionalLineInfo(hasLineinfo, n, s3);
    var (debug, s5) :- DebugInfo(stable, s4);
    Ok(Tail(lineDefined, name, debug), s5)
  }

  /** One round of the `for` loop of `bytecode`: a prototype, pushed after the table its children left. */
  function ProtoRound(stable: seq<Bytes>, protos: seq<Chunk>, s: Bytes): (r: Result<seq<Chunk>>)
    ensures Shorter(r, s)
    ensures r.Ok? ==> |r.value| == |protos| + 1
  {
    var (step, s1) :- DecodeProto(stable, protos, s);
    Ok(step.table + [step.proto], s1)
  }

  /** The first `k` rounds of the `for` loop of `bytecode`: the prototype table they build. */
  function ProtosRead(stable: seq<Bytes>, k: nat, s: Bytes): (r: Result<seq<Chunk>>)
    ensures NoLonger(r, s)
  {
    Rounds(ProtoRound, stable, k, [], s)
  }

  /**
   * The root: a `varint` index into the prototype table. An index out of
   * range panics, and so does an empty root (`assert!`).
   */
  function SelectRoot(protos: seq<Chunk>, s: Bytes): (r: Result<Chunk>)
    ensures Shorter(r, s)
    ensures r.Ok? ==> r.value in protos && !IsEmpty(r.value)
    ensures r.Ok? ==> DecodeVarint(s).Ok? && DecodeVarint(s).value < |protos| && r.value == protos[DecodeVarint(s).value]
    ensures DecodeVarint(s).Ok? ==>
      (r == Err(Panic) <==> DecodeVarint(s).value >= |protos| || IsEmpty(protos[DecodeVarint(s).value]))
  {
    var (mainid, s1) :- DecodeVarint(s);
    if mainid >= |protos| then Err(Panic)
    else if IsEmpty(protos[mainid]) then Err(Panic)
    else Ok(protos[mainid], s1)
  }

  /** `bytecode` as a function of the input. */
  function DecodeBytecode(s: Bytes): (r: Result<Chunk>)
    ensures Shorter(r, s)
    ensures r.Ok? ==> !IsEmpty(r.value)
  {
    var (_, s1) :- ReadU8(s);
    var (stable, s2) :- StringTable(s1);
    var (num, s3) :- DecodeVarint(s2);
    var (protos, s4) :- ProtosRead(stable, num, s3);
    SelectRoot(protos, s4)
  }

  /** One round of the child list. */
  lemma ChildrenStep(protos: seq<Chunk>, n: nat, acc: seq<Chunk>, s: Bytes)
    requires n > 0
    ensures DecodeVarint(s).Err? ==> ChildrenLoop(protos, n, acc, s) == Err(DecodeVarint(s).failure)
    ensures DecodeVarint(s).Ok? && DecodeVarint(s).value >= |protos| ==> ChildrenLoop(protos, n, acc, s) == Err(Panic)
  {
  }

  lemma ChildrenUnfold(protos: seq<Chunk>, s: Bytes)
    ensures DecodeVarint(s).Err? ==> Children(protos, s) == Err(DecodeVarint(s).failure)
    ensures DecodeVarint(s).Ok? ==> Children(protos, s) == ChildrenLoop(protos, DecodeVarint(s).value, [], DecodeVarint(s).rest)
  {
  }

  /** The child list of `bytecode`, moving each child out of the prototype table in place. */
  method TakeChildren(protos0: seq<Chunk>, input0: Bytes) returns (r: Result<Taken>)
    ensures r == Children(protos0, input0)
  {
    ChildrenUnfold(protos0, input0);
    var countResult := Varint(input0);
    if countResult.Err? {
      return Err(countResult.failure);
    }
    var input := countResult.rest;
    ghost var all := ChildrenLoop(protos0, countResult.value, [], input);
    var protos := protos0;
    var children: seq<Chunk> := [];
    var left: nat := countResult.value;
    while left > 0
      invariant ChildrenLoop(protos, left, children, input) == all
    {
      ChildrenStep(protos, left, children, input);
      var iResult := Varint(input);
      if iResult.Err? {
        return Err(iResult.failure);
      }
      var i := iResult.value;
      if i >= |protos| {
        return Err(Panic);
      }
      ChildStep(protos, left, children, input);
      left := left - 1;
      children := children + [protos[i]];
      protos := protos[i := EmptyChunk];
      input := iResult.rest;
    }
    return Ok(Taken(children, protos), input);
  }

  /** One prototype of `bytecode`: the body of its `for` loop. */
  method ReadProto(stable: seq<Bytes>, protos: seq<Chunk>, input0: Bytes) returns (r: Result<Moved>)
    ensures r == DecodeProto(stable, protos, input0)
  {
    var head := Take(4, input0);
    if head.Err? {
      return Err(head.failure);
    }
    var b := head.value;
    var instructions := Instructions(head.rest);
    if instructions.Err? {
      return Err(instructions.failure);
    }
    var constants := Constants(instructions.rest, stable);
    if constants.Err? {
      return Err(constants.failure);
    }
    var kids := TakeChildren(protos, constants.rest);
    if kids.Err? {
      return Err(kids.failure);
    }
    var tail := ProtoTail(stable, |instructions.value|, kids.rest);
    if tail.Err? {
      return Err(tail.failure);
    }
    var vararg := if b[3] > 0 then Some(VarArgInfo(true, true)) else None;
    var c := Chunk(tail.value.name, tail.value.lineDefined, 0, b[2], b[1], b[0], 0, vararg,
      instructions.value, constants.value, [], kids.value.children, [], tail.value.debug.locals, [],
      tail.value.debug.upvalueNames);
    return Ok(Moved(c, kids.value.table), tail.rest);
  }

  /**
   * `bytecode`: the version byte, the string table, the prototype table
   * built by the `for` loop, then the root moved out of it.
   */
  method Bytecode(input0: Bytes) returns (r: Result<Chunk>)
    ensures r == DecodeBytecode(input0)
  {
    var version := ReadU8(input0);
    if version.Err? {
      return Err(version.failure);
    }
    var stable := StringTable(version.rest);
    if stable.Err? {
      return Err(stable.failure);
    }
    var num := Varint(stable.rest);
    if num.Err? {
      return Err(num.failure);
    }
    DecodeBytecodeUnfold(input0);
    var protos := ReadProtos(stable.value, num.value, num.rest);
    if protos.Err? {
      return Err(protos.failure);
    }
    r := TakeRoot(protos.value, protos.rest);
  }

  /** The `for` loop of `bytecode`, pushing each prototype onto the prototype table. */
  method ReadProtos(strings: seq<Bytes>, num: nat, input0: Bytes) returns (r: Result<seq<Chunk>>)
    ensures r == ProtosRead(strings, num, input0)
  {
    var input := input0;
    var protos: seq<Chunk> := [];
    for i := 0 to num
      invariant ProtosRead(strings, i, input0) == Ok(protos, input)
    {
      var proto := ReadProto(strings, protos, input);
      if proto.Err? {
        RoundsFailed(ProtoRound, strings, i + 1, num, [], input0);
        return Err(proto.failure);
      }
      protos := proto.value.table + [proto.value.proto];
      input := proto.rest;
    }
    return Ok(protos, input);
  }

  /** The end of `bytecode`: the root moved out of the prototype table and checked non-empty. */
  method TakeRoot(protos0: seq<Chunk>, input0: Bytes) returns (r: Result<Chunk>)
    ensures r == SelectRoot(protos0, input0)
  {
    var protos := protos0;
    var mainid := Varint(input0);
    if mainid.Err? {
      return Err(mainid.failure);
    }
    if mainid.value >= |protos| {
      return Err(Panic);
    }
    var main := protos[mainid.value];
    protos := protos[mainid.value := EmptyChunk];
    if IsEmpty(main) {
      return Err(Panic);
    }
    return Ok(main, mainid.rest);
  }

  lemma DecodeBytecodeUnfold(s: Bytes)
    requires ReadU8(s).Ok? && StringTable(ReadU8(s).rest).Ok?
    requires DecodeVarint(StringTable(ReadU8(s).rest).rest).Ok?
    ensures var stable := StringTable(ReadU8(s).rest);
      var num := DecodeVarint(stable.rest);
      var protos := ProtosRead(stable.value, num.value, num.rest);
      DecodeBytecode(s) == if protos.Err? then Err(protos.failure) else SelectRoot(protos.value, protos.rest)
  {
  }
}
